/** What one turn of the mailman leaves in the message table when nobody else acts in it: said of rows, for every
    ending, and not of transactions. */
module Aftermath {
  import opened Wrappers
  import opened Bus
  import opened BusLaws
  import opened NoticeBudget
  import opened Answers
  import opened Verdicts
  import opened Turns

  // ---- The account by ending ------------------------------------------------------------------------------------

  /** The state the claimed row is left in. */
  function RowEnds(e: Ending): State {
    match e
    case Pinged(healthy) => if healthy then Delivered(true) else Failed
    case Blocked(_) => Failed
    case Absorbed(_) => Failed
    case GateStopped => Delivering
    case ResetInterrupted => Delivered(true)
    case Attempted(r) => (
      match r
      case Pasted => Delivered(true)
      case SubmittedExternally => Delivered(true)
      case Unsupported => Delivered(true)
      case Unverified => Delivered(false)
      case PaneMissing => Failed
      case HardError => Failed
      case InputRaced => Queued
      case PriorPasteStuck => Queued)
    case _ => Queued
  }

  /** A failed row, and an unverified one, is reported to its sender if that is switched on, unless it is a failure
      notice itself. */
  predicate FailureReported(opts: Options, msg: Row, e: Ending) {
    && msg.kind != FailureNotice
    && if e == Attempted(Unverified) then opts.notifyOnInputBox
       else opts.notifyOnFailed && (e.Blocked? || e == Attempted(PaneMissing) || e == Attempted(HardError))
  }

  /** The notice that goes back to the sender, if any. */
  function Notices(opts: Options, msg: Row, e: Ending): seq<Row> {
    if FailureReported(opts, msg, e) then [Row(opts.agent, msg.sender, FailureNotice, msg.body, false, Queued)]
    else if e.Absorbed? && msg.kind == Message then [Row(opts.agent, msg.sender, DedupeNotice, msg.body, false, Queued)]
    else []
  }

  /** What the operator had typed, as a row to oneself. */
  function Drafts(opts: Options, d: Dossier): seq<Row> {
    if d.archived.Some? then [Row(opts.agent, opts.agent, StrandedDraft, d.archived.value, false, Queued)] else []
  }

  predicate TextLands(e: Ending) {
    e in {Attempted(Pasted), Attempted(SubmittedExternally), Attempted(Unverified), ResetInterrupted}
  }

  /** A row other than the claimed one: the original that absorbed a copy is confirmed, and a delivered session reset
      queues the agent's rows staged for resume. */
  function Bystander(opts: Options, msg: Row, e: Ending, i: RowId, r: Row): Row {
    if e == Absorbed(i) && r.state == Delivered(false) then r.(state := Delivered(true))
    else if e == Attempted(Pasted) && IsSessionReset(msg) && r.recipient == opts.agent && r.state == Deferred("resume")
    then r.(state := Queued)
    else r
  }

  function LeftRows(opts: Options, rows: seq<Row>, id: RowId, msg: Row, e: Ending): (left: seq<Row>)
    ensures |left| == |rows|
  {
    seq(|rows|, i requires 0 <= i < |rows| =>
      if i == id then rows[i].(state := RowEnds(e)) else Bystander(opts, msg, e, i, rows[i]))
  }

  /** A mailman at its loop head takes a queued row of its own. */
  ghost predicate Takes(opts: Options, s: System, id: RowId, msg: Row) {
    && Coherent(s) && At(s, opts.agent, Idle) && opts.agent !in s.parked
    && id < |s.rows| && s.rows[id].recipient == opts.agent && s.rows[id].state == Queued
    && msg == s.rows[id].(state := Delivering)
  }

  // ---- Step by step -----------------------------------------------------------------------------------------------

  /** The table with the claimed row in another state, rows added, and the mailman elsewhere. */
  function Table(s: System, a: Agent, id: RowId, to: State, added: seq<Row>, desk: Desk): System
    requires id < |s.rows| && a < |s.desks|
  {
    s.(rows := s.rows[id := s.rows[id].(state := to)] + added, desks := s.desks[a := desk])
  }

  /** All of the agent's rows but the claimed one are out of flight, the added ones are queued. */
  predicate Alone(s: System, a: Agent, id: RowId, added: seq<Row>) {
    && id < |s.rows| && s.rows[id].recipient == a && a < |s.desks|
    && (forall i | 0 <= i < |s.rows| && i != id && s.rows[i].recipient == a :: s.rows[i].state != Delivering)
    && (forall i | 0 <= i < |added| :: added[i].state == Queued)
  }

  lemma HeadIsAlone(opts: Options, s: System, id: RowId, msg: Row)
    requires Takes(opts, s, id, msg)
    ensures Alone(s, opts.agent, id, [])
  {
    forall i | 0 <= i < |s.rows| && i != id && s.rows[i].recipient == opts.agent ensures s.rows[i].state != Delivering {
      assert Attended(s, i);
    }
  }

  lemma AfterRequeue(s: System, a: Agent, id: RowId, msg: Row, added: seq<Row>)
    requires Alone(s, a, id, added)
    ensures var u := Table(s, a, id, Delivering, added, Holding(id, msg, false));
      Enabled(u, Requeue(a)) && Next(u, Requeue(a)) == Table(s, a, id, Queued, added, Idle)
  {
    var u := Table(s, a, id, Delivering, added, Holding(id, msg, false));
    assert Next(u, Requeue(a)).rows == Table(s, a, id, Queued, added, Idle).rows;
    assert Next(u, Requeue(a)).desks == Table(s, a, id, Queued, added, Idle).desks;
  }

  lemma AfterFinish(s: System, a: Agent, id: RowId, msg: Row, landed: bool, added: seq<Row>, v: Verdict)
    requires Alone(s, a, id, added) && VerdictFits(Holding(id, msg, landed), v)
    ensures var u := Table(s, a, id, Delivering, added, Holding(id, msg, landed));
      && Enabled(u, Finish(a, v))
      && Next(u, Finish(a, v)) ==
         Table(s, a, id, if v.MarkedFailed? then Failed else Delivered(v.verified), added,
               Owing(msg, v.MarkedFailed? && v.absorbed))
  {
    var u := Table(s, a, id, Delivering, added, Holding(id, msg, landed));
    var to := if v.MarkedFailed? then Failed else Delivered(v.verified);
    var t := Table(s, a, id, to, added, Owing(msg, v.MarkedFailed? && v.absorbed));
    assert Next(u, Finish(a, v)).rows == t.rows && Next(u, Finish(a, v)).desks == t.desks;
  }

  lemma AfterNotify(s: System, a: Agent, id: RowId, to: State, msg: Row, absorbed: bool, added: seq<Row>, kind: Kind)
    requires Alone(s, a, id, added)
    ensures var u := Table(s, a, id, to, added, Owing(msg, absorbed));
      && (NoticeDue(msg, absorbed, kind) ==>
           Enabled(u, Notify(a, kind)) &&
           Next(u, Notify(a, kind)) == Table(s, a, id, to, added + [Row(a, msg.sender, kind, msg.body, false, Queued)], Idle))
      && Enabled(u, Rest(a)) && Next(u, Rest(a)) == Table(s, a, id, to, added, Idle)
  {
    var u, more := Table(s, a, id, to, added, Owing(msg, absorbed)), [Row(a, msg.sender, kind, msg.body, false, Queued)];
    assert u.desks[a := Idle] == s.desks[a := Idle];
    assert u.rows + more == s.rows[id := s.rows[id].(state := to)] + (added + more);
  }

  lemma AfterLand(s: System, a: Agent, id: RowId, msg: Row, added: seq<Row>)
    requires Alone(s, a, id, added) && msg.kind != Ping
    ensures var u := Table(s, a, id, Delivering, added, Holding(id, msg, false));
      && Enabled(u, Land(a))
      && Next(u, Land(a)) ==
         Table(s.(landings := s.landings + multiset{id}), a, id, Delivering, added, Holding(id, msg, true))
  {
    var u := Table(s, a, id, Delivering, added, Holding(id, msg, false));
    assert u.desks[a := Holding(id, msg, true)] == s.desks[a := Holding(id, msg, true)];
  }

  lemma AfterStop(s: System, a: Agent, id: RowId, to: State, added: seq<Row>, desk: Desk)
    requires Alone(s, a, id, added) && !desk.Down? && (desk.Holding? ==> !desk.landed)
    ensures var u := Table(s, a, id, to, added, desk);
      Enabled(u, Stop(a)) && Next(u, Stop(a)) == Table(s, a, id, to, added, Down)
  {
    assert Table(s, a, id, to, added, desk).desks[a := Down] == s.desks[a := Down];
  }

  lemma AfterRelease(s: System, a: Agent, id: RowId, to: State, added: seq<Row>)
    requires Alone(s, a, id, added) && !s.rows[id].state.Deferred? && !to.Deferred?
    ensures var u := Table(s, a, id, to, added, Idle);
      && Enabled(u, Release(a))
      && Next(u, Release(a)) == Table(s.(rows := PromoteDeferred(s.rows, a, RESUME)), a, id, to, added, Idle)
  {
    var u, t := Table(s, a, id, to, added, Idle), Table(s.(rows := PromoteDeferred(s.rows, a, RESUME)), a, id, to, added, Idle);
    assert Next(u, Release(a)).rows == t.rows;
  }

  lemma AfterConfirm(s: System, a: Agent, id: RowId, msg: Row, original: RowId)
    requires Alone(s, a, id, []) && s.rows[id].state == Queued
    ensures var u := Table(s, a, id, Delivering, [], Holding(id, msg, false));
      && Enabled(u, Confirm(a, original))
      && Next(u, Confirm(a, original)) ==
         Table(s.(rows := MarkIf(s.rows, original, Delivered(false), Delivered(true))), a, id, Delivering, [], Holding(id, msg, false))
  {
    var u := Table(s, a, id, Delivering, [], Holding(id, msg, false));
    var t := Table(s.(rows := MarkIf(s.rows, original, Delivered(false), Delivered(true))), a, id, Delivering, [], Holding(id, msg, false));
    assert Next(u, Confirm(a, original)).rows == t.rows;
  }

  lemma AfterClaim(opts: Options, s: System, id: RowId, msg: Row, d: Dossier)
    requires Takes(opts, s, id, msg) && (d.archived.Some? ==> msg.kind != StrandedDraft)
    ensures var events := [Claim(opts.agent, id)] + Archived(opts.agent, d);
      && Admissible(s, events)
      && Run(s, events) == Table(s, opts.agent, id, Delivering, Drafts(opts, d), Holding(id, msg, false))
  {
    var a := opts.agent;
    var u := Table(s, a, id, Delivering, [], Holding(id, msg, false));
    assert Next(s, Claim(a, id)).rows == u.rows;
    One(s, Claim(a, id));
    if d.archived.Some? {
      Append(s, [Claim(a, id)], Archive(a, d.archived.value));
    } else {
      assert [Claim(a, id)] + [] == [Claim(a, id)];
    }
  }

  // ---- The duties of an ending ------------------------------------------------------------------------------------

  ghost predicate Leads(s: System, events: seq<Event>, t: System) {
    Admissible(s, events) && Run(s, events) == t
  }

  lemma Then(s: System, e: Event, u: System, rest: seq<Event>, t: System)
    requires Enabled(s, e) && Next(s, e) == u && Leads(u, rest, t)
    ensures Leads(s, [e] + rest, t)
  {
    hide Enabled, Next;
    assert ([e] + rest)[0] == e && ([e] + rest)[1..] == rest;
  }

  lemma Last(s: System, e: Event, t: System)
    requires Enabled(s, e) && Next(s, e) == t
    ensures Leads(s, [e], t)
  {
    hide Enabled, Next;
    One(s, e);
  }

  /** Where an ending leaves the bus. */
  function Left(opts: Options, s: System, id: RowId, msg: Row, e: Ending, added: seq<Row>): System
    requires opts.agent < |s.desks|
  {
    System(
      LeftRows(opts, s.rows, id, msg, e) + added + Notices(opts, msg, e),
      s.desks[opts.agent := if e.GateStopped? || e.ResetInterrupted? then Down else Idle],
      if e.StaleParked? || e.PaneParked? then s.parked + {opts.agent} else s.parked,
      if TextLands(e) then s.landings + multiset{id} else s.landings)
  }

  lemma LeftIsTable(opts: Options, s: System, id: RowId, msg: Row, e: Ending, added: seq<Row>)
    requires opts.agent < |s.desks| && id < |s.rows|
    requires !e.Absorbed? && !(e == Attempted(Pasted) && IsSessionReset(msg))
    ensures Left(opts, s, id, msg, e, added) ==
      var landings := if TextLands(e) then s.landings + multiset{id} else s.landings;
      var parked := if e.StaleParked? || e.PaneParked? then s.parked + {opts.agent} else s.parked;
      Table(s.(landings := landings, parked := parked), opts.agent, id, RowEnds(e), added + Notices(opts, msg, e),
            if e.GateStopped? || e.ResetInterrupted? then Down else Idle)
  {
    hide IsSessionReset, RowEnds, Notices, TextLands;
    assert LeftRows(opts, s.rows, id, msg, e) == s.rows[id := s.rows[id].(state := RowEnds(e))];
    assert s.rows[id := s.rows[id].(state := RowEnds(e))] + added + Notices(opts, msg, e) ==
           s.rows[id := s.rows[id].(state := RowEnds(e))] + (added + Notices(opts, msg, e));
  }

  predicate Reverts(e: Ending) {
    || e.CapDeferred? || e.StaleDeferred? || e.GateDeferred? || e.ProbeDeferred? || e.PaneDeferred?
    || e == Attempted(InputRaced) || e == Attempted(PriorPasteStuck)
  }

  ghost predicate DutiesDone(opts: Options, s: System, id: RowId, msg: Row, e: Ending, added: seq<Row>)
    requires Alone(s, opts.agent, id, added)
  {
    Leads(Table(s, opts.agent, id, Delivering, added, Holding(id, msg, false)), Duties(opts, msg, e), Left(opts, s, id, msg, e, added))
  }

  lemma RevertsDone(opts: Options, s: System, id: RowId, msg: Row, e: Ending, added: seq<Row>)
    requires Alone(s, opts.agent, id, added) && (Reverts(e) || e.StaleParked? || e.PaneParked?)
    ensures DutiesDone(opts, s, id, msg, e, added)
  {
    hide Enabled, Next, Left, IsSessionReset;
    LeftIsTable(opts, s, id, msg, e, added);
    assert added + [] == added;
    var a := opts.agent;
    var u, v := Table(s, a, id, Delivering, added, Holding(id, msg, false)), Table(s, a, id, Queued, added, Idle);
    AfterRequeue(s, a, id, msg, added);
    if Reverts(e) {
      Last(u, Requeue(a), v);
    } else {
      AfterPark(v, a);
      Last(v, Park(a), v.(parked := s.parked + {a}));
      Then(u, Requeue(a), v, [Park(a)], v.(parked := s.parked + {a}));
    }
  }

  lemma AfterPark(s: System, a: Agent)
    requires At(s, a, Idle)
    ensures Enabled(s, Park(a)) && Next(s, Park(a)) == s.(parked := s.parked + {a})
  {
  }

  lemma StopDone(opts: Options, s: System, id: RowId, msg: Row, added: seq<Row>)
    requires Alone(s, opts.agent, id, added)
    ensures DutiesDone(opts, s, id, msg, GateStopped, added)
  {
    hide Enabled, Next, Left, IsSessionReset;
    LeftIsTable(opts, s, id, msg, GateStopped, added);
    assert added + [] == added;
    var a := opts.agent;
    AfterStop(s, a, id, Delivering, added, Holding(id, msg, false));
    Last(Table(s, a, id, Delivering, added, Holding(id, msg, false)), Stop(a), Table(s, a, id, Delivering, added, Down));
  }

  /** The terminal mark and the notice or its absence. */
  lemma MarkDone(s: System, a: Agent, id: RowId, msg: Row, landed: bool, added: seq<Row>, v: Verdict, notice: Option<Kind>)
    requires Alone(s, a, id, added) && VerdictFits(Holding(id, msg, landed), v)
    requires notice.Some? ==> NoticeDue(msg, v.MarkedFailed? && v.absorbed, notice.value)
    ensures Leads(
      Table(s, a, id, Delivering, added, Holding(id, msg, landed)),
      [Finish(a, v), if notice.Some? then Notify(a, notice.value) else Rest(a)],
      Table(s, a, id, if v.MarkedFailed? then Failed else Delivered(v.verified),
            added + (if notice.Some? then [Row(a, msg.sender, notice.value, msg.body, false, Queued)] else []), Idle))
  {
    hide Enabled, Next, Leads, VerdictFits, NoticeDue;
    var to := if v.MarkedFailed? then Failed else Delivered(v.verified);
    var absorbed := v.MarkedFailed? && v.absorbed;
    var u, w := Table(s, a, id, Delivering, added, Holding(id, msg, landed)), Table(s, a, id, to, added, Owing(msg, absorbed));
    AfterFinish(s, a, id, msg, landed, added, v);
    AfterNotify(s, a, id, to, msg, absorbed, added, if notice.Some? then notice.value else FailureNotice);
    var e := if notice.Some? then Notify(a, notice.value) else Rest(a);
    var t := Table(s, a, id, to, added + (if notice.Some? then [Row(a, msg.sender, notice.value, msg.body, false, Queued)] else []), Idle);
    assert added + [] == added;
    Last(w, e, t);
    Then(u, Finish(a, v), w, [e], t);
    assert [Finish(a, v)] + [e] == [Finish(a, v), e];
  }

  lemma FailureDone(opts: Options, s: System, id: RowId, msg: Row, e: Ending, added: seq<Row>)
    requires Alone(s, opts.agent, id, added) && msg.kind != Ping
    requires e.Blocked? || e == Attempted(PaneMissing) || e == Attempted(HardError)
    ensures DutiesDone(opts, s, id, msg, e, added)
  {
    hide Enabled, Next, Left, IsSessionReset, Table;
    LeftIsTable(opts, s, id, msg, e, added);
    MarkDone(s, opts.agent, id, msg, false, added, MarkedFailed(false), if FailureReported(opts, msg, e) then Some(FailureNotice) else None);
  }

  lemma PingDone(opts: Options, s: System, id: RowId, msg: Row, healthy: bool, added: seq<Row>)
    requires Alone(s, opts.agent, id, added) && msg.kind == Ping
    ensures DutiesDone(opts, s, id, msg, Pinged(healthy), added)
  {
    hide Enabled, Next, Left, IsSessionReset, Table;
    LeftIsTable(opts, s, id, msg, Pinged(healthy), added);
    MarkDone(s, opts.agent, id, msg, false, added, if healthy then MarkedDelivered(true) else MarkedFailed(false), None);
  }

  lemma UnsupportedDone(opts: Options, s: System, id: RowId, msg: Row, added: seq<Row>)
    requires Alone(s, opts.agent, id, added) && msg.kind == Control
    ensures DutiesDone(opts, s, id, msg, Attempted(Unsupported), added)
  {
    hide Enabled, Next, Left, IsSessionReset, Table;
    LeftIsTable(opts, s, id, msg, Attempted(Unsupported), added);
    MarkDone(s, opts.agent, id, msg, false, added, MarkedDelivered(true), None);
  }

  lemma LandedDone(opts: Options, s: System, id: RowId, msg: Row, e: Ending, added: seq<Row>)
    requires Alone(s, opts.agent, id, added) && msg.kind != Ping
    requires e == Attempted(SubmittedExternally) || e == Attempted(Unverified) || (e == Attempted(Pasted) && !IsSessionReset(msg))
    ensures DutiesDone(opts, s, id, msg, e, added)
  {
    hide Enabled, Next, Left, IsSessionReset, Table, Leads;
    LeftIsTable(opts, s, id, msg, e, added);
    var a, s' := opts.agent, s.(landings := s.landings + multiset{id});
    SameRowsAlone(s, s', a, id, added);
    AfterLand(s, a, id, msg, added);
    var v := MarkedDelivered(e != Attempted(Unverified));
    var notice := if FailureReported(opts, msg, e) then Some(FailureNotice) else None;
    MarkDone(s', a, id, msg, true, added, v, notice);
    var rest := [Finish(a, v), if notice.Some? then Notify(a, notice.value) else Rest(a)];
    Then(Table(s, a, id, Delivering, added, Holding(id, msg, false)), Land(a),
         Table(s', a, id, Delivering, added, Holding(id, msg, true)), rest, Left(opts, s, id, msg, e, added));
    assert [Land(a)] + rest == Duties(opts, msg, e);
  }

  lemma SameRowsAlone(s: System, s': System, a: Agent, id: RowId, added: seq<Row>)
    requires Alone(s, a, id, added) && s'.rows == s.rows && s'.desks == s.desks
    ensures Alone(s', a, id, added)
  {
  }

  /** A session reset that was pasted: interrupted in its settle wait, or with the staged rows released. */
  lemma ResetDone(opts: Options, s: System, id: RowId, msg: Row, e: Ending, added: seq<Row>)
    requires Alone(s, opts.agent, id, added) && msg.kind != Ping && s.rows[id].state == Queued
    requires e == ResetInterrupted || (e == Attempted(Pasted) && IsSessionReset(msg))
    ensures DutiesDone(opts, s, id, msg, e, added)
  {
    hide Enabled, Next, Left, IsSessionReset, Table, Leads;
    var a, s' := opts.agent, s.(landings := s.landings + multiset{id});
    SameRowsAlone(s, s', a, id, added);
    AfterLand(s, a, id, msg, added);
    var u, v := Table(s, a, id, Delivering, added, Holding(id, msg, false)), Table(s', a, id, Delivering, added, Holding(id, msg, true));
    var w, t := Table(s', a, id, Delivered(true), added, Idle), Left(opts, s, id, msg, e, added);
    var e1, e2 := Finish(a, MarkedDelivered(true)), Rest(a);
    var e3 := if e == ResetInterrupted then Stop(a) else Release(a);
    MarkDone(s', a, id, msg, true, added, MarkedDelivered(true), None);
    assert added + [] == added;
    if e == ResetInterrupted {
      AfterStop(s', a, id, Delivered(true), added, Idle);
      LeftIsTable(opts, s, id, msg, e, added);
    } else {
      AfterRelease(s', a, id, Delivered(true), added);
      ReleasedTable(opts, s, id, msg, added);
    }
    Last(w, e3, t);
    Chain(v, [e1, e2], w, [e3], t);
    Then(u, Land(a), v, [e1, e2] + [e3], t);
    assert [Land(a)] + ([e1, e2] + [e3]) == Duties(opts, msg, e);
  }

  lemma Chain(s: System, first: seq<Event>, u: System, second: seq<Event>, t: System)
    requires Leads(s, first, u) && Leads(u, second, t)
    ensures Leads(s, first + second, t)
  {
    hide Admissible, Run;
    Compose(s, first, second);
  }

  lemma ReleasedTable(opts: Options, s: System, id: RowId, msg: Row, added: seq<Row>)
    requires opts.agent < |s.desks| && id < |s.rows| && s.rows[id].state == Queued && IsSessionReset(msg)
    ensures Left(opts, s, id, msg, Attempted(Pasted), added) ==
      Table(s.(rows := PromoteDeferred(s.rows, opts.agent, RESUME), landings := s.landings + multiset{id}),
            opts.agent, id, Delivered(true), added, Idle)
  {
    hide IsSessionReset;
    var promoted := PromoteDeferred(s.rows, opts.agent, RESUME);
    assert LeftRows(opts, s.rows, id, msg, Attempted(Pasted)) == promoted[id := promoted[id].(state := Delivered(true))];
    assert Notices(opts, msg, Attempted(Pasted)) == [];
  }

  lemma AbsorbedDone(opts: Options, s: System, id: RowId, msg: Row, original: RowId)
    requires Alone(s, opts.agent, id, []) && msg.kind != Ping && s.rows[id].state == Queued
    ensures DutiesDone(opts, s, id, msg, Absorbed(original), [])
  {
    hide Enabled, Next, Left, IsSessionReset, Table, Leads;
    var a, confirmed := opts.agent, s.(rows := MarkIf(s.rows, original, Delivered(false), Delivered(true)));
    assert Alone(confirmed, a, id, []);
    AfterConfirm(s, a, id, msg, original);
    var v, notice := MarkedFailed(true), if msg.kind == Message then Some(DedupeNotice) else None;
    MarkDone(confirmed, a, id, msg, false, [], v, notice);
    ConfirmedTable(opts, s, id, msg, original);
    var rest := [Finish(a, v), if notice.Some? then Notify(a, notice.value) else Rest(a)];
    Then(Table(s, a, id, Delivering, [], Holding(id, msg, false)), Confirm(a, original),
         Table(confirmed, a, id, Delivering, [], Holding(id, msg, false)), rest, Left(opts, s, id, msg, Absorbed(original), []));
    assert [Confirm(a, original)] + rest == Duties(opts, msg, Absorbed(original));
  }

  lemma ConfirmedTable(opts: Options, s: System, id: RowId, msg: Row, original: RowId)
    requires opts.agent < |s.desks| && id < |s.rows| && s.rows[id].state == Queued
    ensures Left(opts, s, id, msg, Absorbed(original), []) ==
      Table(s.(rows := MarkIf(s.rows, original, Delivered(false), Delivered(true))), opts.agent, id, Failed,
            [] + (if msg.kind == Message then [Row(opts.agent, msg.sender, DedupeNotice, msg.body, false, Queued)] else []), Idle)
  {
    hide IsSessionReset;
    var rows := MarkIf(s.rows, original, Delivered(false), Delivered(true));
    assert LeftRows(opts, s.rows, id, msg, Absorbed(original)) == rows[id := rows[id].(state := Failed)];
  }

  lemma AttemptDone(opts: Options, s: System, id: RowId, msg: Row, r: PasteResult, added: seq<Row>)
    requires Alone(s, opts.agent, id, added) && s.rows[id].state == Queued
    requires msg.kind != Ping && (r == Unsupported ==> msg.kind == Control)
    ensures DutiesDone(opts, s, id, msg, Attempted(r), added)
  {
    hide DutiesDone, IsSessionReset, Alone;
    match r
    case Pasted =>
      if IsSessionReset(msg) { ResetDone(opts, s, id, msg, Attempted(r), added); }
      else { LandedDone(opts, s, id, msg, Attempted(r), added); }
    case SubmittedExternally => LandedDone(opts, s, id, msg, Attempted(r), added);
    case Unverified => LandedDone(opts, s, id, msg, Attempted(r), added);
    case Unsupported => UnsupportedDone(opts, s, id, msg, added);
    case PaneMissing => FailureDone(opts, s, id, msg, Attempted(r), added);
    case HardError => FailureDone(opts, s, id, msg, Attempted(r), added);
    case _ => RevertsDone(opts, s, id, msg, Attempted(r), added);
  }

  lemma EveryEndingDone(opts: Options, s: System, id: RowId, msg: Row, e: Ending, added: seq<Row>)
    requires Alone(s, opts.agent, id, added) && s.rows[id].state == Queued
    requires (msg.kind == Ping <==> e.Pinged?) && (e.Absorbed? ==> added == []) && (e == Attempted(Unsupported) ==> msg.kind == Control)
    ensures DutiesDone(opts, s, id, msg, e, added)
  {
    hide DutiesDone, IsSessionReset, Alone;
    match e
    case Pinged(healthy) => PingDone(opts, s, id, msg, healthy, added);
    case Blocked(_) => FailureDone(opts, s, id, msg, e, added);
    case Absorbed(original) => AbsorbedDone(opts, s, id, msg, original);
    case GateStopped => StopDone(opts, s, id, msg, added);
    case ResetInterrupted => ResetDone(opts, s, id, msg, e, added);
    case Attempted(r) => AttemptDone(opts, s, id, msg, r, added);
    case _ => RevertsDone(opts, s, id, msg, e, added);
  }

  // ---- The turn ---------------------------------------------------------------------------------------------------

  /** A turn in which nobody else acts, from the claim to the closing wait: its transactions are possible, and in the
      end the claimed row is in the state its ending names, its text has landed or not, bystanders moved only as
      said, and exactly the archived draft and the sender's notice were added. */
  lemma TurnOnTheTable(opts: Options, reg: Registration, round: Round, s: System, o: Outcome, f: Findings)
    requires o.Handled? && Takes(opts, s, o.id, o.msg) && Accounted(opts, reg, round, o, f)
    ensures Admissible(s, Work(opts, o))
    ensures var t, e := Run(s, Work(opts, o)), o.ending;
      && t.rows == LeftRows(opts, s.rows, o.id, o.msg, e) + Drafts(opts, o.dossier) + Notices(opts, o.msg, e)
      && t.desks == s.desks[opts.agent := if o.stopped || e.GateStopped? || e.ResetInterrupted? then Down else Idle]
      && t.parked == (if e.StaleParked? || e.PaneParked? then s.parked + {opts.agent} else s.parked)
      && t.landings == (if TextLands(e) then s.landings + multiset{o.id} else s.landings)
  {
    hide Admissible, Run, Enabled, Next, Duties, DutiesDone, LeftRows, Notices, Drafts, Archived, Coherent, IsSessionReset;
    var a, added := opts.agent, Drafts(opts, o.dossier);
    var claim, duties := [Claim(a, o.id)] + Archived(a, o.dossier), Duties(opts, o.msg, o.ending);
    var u := Table(s, a, o.id, Delivering, added, Holding(o.id, o.msg, false));
    var v := Left(opts, s, o.id, o.msg, o.ending, added);
    HeadIsAlone(opts, s, o.id, o.msg);
    WhatExplains(opts, reg, round, o, f);
    AfterClaim(opts, s, o.id, o.msg, o.dossier);
    DraftsAreQueued(opts, s, o.id, o.dossier);
    EveryEndingDone(opts, s, o.id, o.msg, o.ending, added);
    LeadsOn(opts, s, o.id, o.msg, o.ending, added);
    Chain(s, claim, u, duties, v);
    if o.stopped {
      StopFromIdle(v, a);
      Chain(s, claim + duties, v, [Stop(a)], v.(desks := v.desks[a := Down]));
    } else {
      assert claim + duties + [] == claim + duties;
    }
  }

  lemma StopFromIdle(s: System, a: Agent)
    requires At(s, a, Idle)
    ensures Leads(s, [Stop(a)], s.(desks := s.desks[a := Down]))
  {
    Last(s, Stop(a), s.(desks := s.desks[a := Down]));
  }

  lemma LeadsOn(opts: Options, s: System, id: RowId, msg: Row, e: Ending, added: seq<Row>)
    requires Alone(s, opts.agent, id, added) && DutiesDone(opts, s, id, msg, e, added)
    ensures Leads(Table(s, opts.agent, id, Delivering, added, Holding(id, msg, false)), Duties(opts, msg, e), Left(opts, s, id, msg, e, added))
  {
  }

  lemma DraftsAreQueued(opts: Options, s: System, id: RowId, d: Dossier)
    requires Alone(s, opts.agent, id, [])
    ensures Alone(s, opts.agent, id, Drafts(opts, d))
  {
  }

  lemma WhatExplains(opts: Options, reg: Registration, round: Round, o: Outcome, f: Findings)
    requires o.Handled? && Accounted(opts, reg, round, o, f)
    ensures o.msg.kind == Ping <==> o.ending.Pinged?
    ensures o.ending.Absorbed? ==> Drafts(opts, o.dossier) == []
    ensures o.ending == Attempted(Unsupported) ==> o.msg.kind == Control
    ensures o.dossier.archived.Some? ==> o.msg.kind != StrandedDraft
    ensures o.stopped ==> !o.ending.GateStopped? && !o.ending.ResetInterrupted?
  {
    hide PassedUpToGate, PassedProbe, TruthfulRouting, RunsFit, HealsFit, InPlace, IsSessionReset;
  }
}
