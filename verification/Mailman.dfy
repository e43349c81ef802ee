/** The mailman daemon: one process per recipient, looping claim, guards, paste, mark.

    `SharedBus` is the message table everyone writes to; an arbitrary list of other parties' events happens before
    each turn of a mailman and after each of its transactions. `Mailman` holds the loop's own variables. */
module Mailmen {
  import opened Wrappers
  import opened Bus
  import opened BusLaws
  import opened NoticeBudget
  import opened Streaks
  import opened Answers
  import opened Verdicts
  import opened Turns

  function Own(log: seq<Event>, a: Agent): seq<Event> {
    if log == [] then []
    else Own(log[..|log| - 1], a) + (if ByMailman(log[|log| - 1], a) then [log[|log| - 1]] else [])
  }

  lemma OwnAppend(log: seq<Event>, a: Agent, e: Event)
    ensures Own(log + [e], a) == Own(log, a) + (if ByMailman(e, a) then [e] else [])
  {
    assert (log + [e])[..|log|] == log;
  }

  lemma {:induction false} OwnOfBoth(before: seq<Event>, after: seq<Event>, a: Agent)
    ensures Own(before + after, a) == Own(before, a) + Own(after, a)
  {
    if after == [] {
      assert before + after == before;
    } else {
      var n := |after| - 1;
      OwnOfBoth(before, after[..n], a);
      assert (before + after)[..|before| + n] == before + after[..n];
    }
  }

  lemma {:induction false} NothingButOwn(log: seq<Event>, a: Agent)
    ensures |Own(log, a)| <= |log| && (|Own(log, a)| == |log| ==> Own(log, a) == log)
  {
    if log != [] {
      var n := |log| - 1;
      NothingButOwn(log[..n], a);
      assert log == log[..n] + [log[n]];
    }
  }

  predicate NoneDelivering(rows: seq<Row>, a: Agent) {
    forall i | 0 <= i < |rows| && rows[i].recipient == a :: rows[i].state != Delivering
  }

  predicate ByOthers(s: System, a: Agent, e: Event) {
    !ByMailman(e, a) && Enabled(s, e)
  }

  /** The others' turn: every event of the list that is theirs and possible happens. */
  function Others(s: System, a: Agent, peers: seq<Event>): System {
    if peers == [] then s
    else
      var t, e := Others(s, a, peers[..|peers| - 1]), peers[|peers| - 1];
      if ByOthers(t, a, e) then Next(t, e) else t
  }

  /** Nobody else parks an agent; a register --force among the events clears it. */
  lemma {:induction false} OthersUnpark(s: System, a: Agent, peers: seq<Event>)
    ensures a in Others(s, a, peers).parked <==> a in s.parked && Unpark(a) !in peers
  {
    if peers != [] { OthersUnpark(s, a, peers[..|peers| - 1]); }
  }

  predicate NobodyUnparks(a: Agent, rounds: seq<Round>) {
    forall k | 0 <= k < |rounds| :: Unpark(a) !in rounds[k].before
  }

  predicate NothingSwept(outcomes: seq<Outcome>) {
    forall k | 0 <= k < |outcomes| :: !Swept(outcomes[k])
  }

  class SharedBus {
    ghost const first: System
    var sys: System
    var log: seq<Event>

    /** The table is where the logged events lead from the table the daemons were started on. */
    ghost predicate Traced()
      reads this
    {
      Cold(first) && Admissible(first, log) && sys == Run(first, log)
    }

    constructor (rows: seq<Row>, mailmen: nat)
      requires forall i | 0 <= i < |rows| && rows[i].state == Delivering :: rows[i].recipient < mailmen
      ensures Traced() && Coherent(sys) && log == [] && sys.rows == rows && |sys.desks| == mailmen
    {
      sys := System(rows, seq(mailmen, _ => Down), {}, multiset{});
      first := System(rows, seq(mailmen, _ => Down), {}, multiset{});
      log := [];
      new;
      ColdIsCoherent(sys);
    }

    /** One transaction. */
    method Post(e: Event)
      requires Traced() && Coherent(sys) && Enabled(sys, e)
      modifies this
      ensures Traced() && Coherent(sys)
      ensures sys == Next(old(sys), e) && log == old(log) + [e]
    {
      hide Next, Enabled, Coherent, Cold;
      CoherentNext(sys, e);
      Append(first, log, e);
      sys := Next(sys, e);
      log := log + [e];
    }

    method Interfere(a: Agent, peers: seq<Event>)
      requires Traced() && Coherent(sys) && a < |sys.desks|
      modifies this
      ensures Traced() && Coherent(sys) && sys == Others(old(sys), a, peers)
      ensures old(log) <= log
      ensures |sys.desks| == |old(sys).desks| && sys.desks[a] == old(sys).desks[a]
      ensures a in sys.parked <==> a in old(sys).parked && Unpark(a) !in peers
      ensures Own(log, a) == Own(old(log), a)
    {
      hide Traced, Coherent;
      for i := 0 to |peers|
        invariant Traced() && Coherent(sys) && sys == Others(old(sys), a, peers[..i]) && old(log) <= log
        invariant |sys.desks| == |old(sys).desks| && sys.desks[a] == old(sys).desks[a]
        invariant Own(log, a) == Own(old(log), a)
      {
        assert peers[..i + 1][..i] == peers[..i];
        if ByOthers(sys, a, peers[i]) {
          OwnAppend(log, a, peers[i]);
          Post(peers[i]);
        }
      }
      assert peers[..|peers|] == peers;
      OthersUnpark(old(sys), a, peers);
    }

    /** What the protocol promises of every run holds of whatever the daemons have done so far. */
    lemma SoFar()
      requires Traced()
      ensures SingleFlight(sys)
      ensures forall id: RowId :: sys.landings[id] <= 1
      ensures Terminals(log) + Outstanding(sys) <= Outstanding(first) + TotalInjected(log)
    {
      RunsAreSingleFlight(first, log);
      ColdIsCoherent(first);
      TerminalOutcomesAreBounded(first, log);
      forall id: RowId ensures sys.landings[id] <= 1 {
        RunsLandAtMostOnce(first, log, id);
      }
    }
  }

  // ---- The daemon ---------------------------------------------------------------------------------------------

  class Mailman {
    const opts: Options
    const bus: SharedBus

    var consecutivePaneFails: nat
    var paneFailMsg: Option<RowId>
    var consecutiveSessionStale: nat
    var rateLimitedMsg: Option<RowId>
    var rateLimitedAttempts: nat
    var freshnessAlerted: bool

    var acts: seq<Event>                  // own transactions, in order
    var misses: seq<Sample<RowId>>        // what the pre-paste probes saw
    var stales: seq<Sample<()>>           // what the session-stale checks saw
    var throttles: seq<Sample<RowId>>     // what the gate saw of provider throttling

    ghost predicate Attached()
      reads `acts, bus
    {
      && opts.agent < |bus.sys.desks|
      && bus.Traced()
      && Coherent(bus.sys)
      && Own(bus.log, opts.agent) == acts
    }

    function Found(): Findings
      reads `misses, `stales, `throttles
    {
      Findings(misses, stales, throttles)
    }

    /** Each counter is the length of the current run of bad answers, counted modulo its threshold. */
    ghost predicate CountersFit()
      reads `consecutivePaneFails, `paneFailMsg, `misses
      reads `consecutiveSessionStale, `stales
      reads `rateLimitedMsg, `rateLimitedAttempts, `throttles
    {
      && Counts(misses, opts.stuckThreshold, consecutivePaneFails, paneFailMsg)
      && Counts(stales, opts.staleThreshold, consecutiveSessionStale, if consecutiveSessionStale > 0 then Some(()) else None)
      && Counts(throttles, 0, rateLimitedAttempts, rateLimitedMsg)
    }

    ghost predicate Valid()
      reads this, bus
    {
      Attached() && CountersFit()
    }

    constructor (opts: Options, bus: SharedBus)
      requires bus.Traced() && Coherent(bus.sys) && opts.agent < |bus.sys.desks|
      ensures this.opts == opts && this.bus == bus && Valid() && !freshnessAlerted
      ensures acts == Own(bus.log, opts.agent) && Found() == Findings([], [], [])
    {
      this.opts, this.bus := opts, bus;
      consecutivePaneFails, paneFailMsg := 0, None;
      consecutiveSessionStale := 0;
      rateLimitedMsg, rateLimitedAttempts := None, 0;
      freshnessAlerted := false;
      acts := Own(bus.log, opts.agent);
      misses, stales, throttles := [], [], [];
    }

    /** If the log has grown by this mailman's transactions alone, the table is where they lead. */
    lemma AloneRuns(sys0: System, log0: seq<Event>, acts0: seq<Event>, more: seq<Event>)
      requires Attached() && Admissible(bus.first, log0) && sys0 == Run(bus.first, log0) && Own(log0, opts.agent) == acts0
      requires log0 <= bus.log && acts == acts0 + more
      ensures |bus.log| - |log0| == |more| ==> Admissible(sys0, more) && bus.sys == Run(sys0, more)
    {
      hide Admissible, Run, Coherent, Own;
      var added := bus.log[|log0|..];
      assert bus.log == log0 + added;
      OwnOfBoth(log0, added, opts.agent);
      NothingButOwn(added, opts.agent);
      assert Own(added, opts.agent) == more by {
        assert (acts0 + Own(added, opts.agent))[|acts0|..] == Own(added, opts.agent) && (acts0 + more)[|acts0|..] == more;
      }
      Cut(bus.first, log0, added);
    }

    lemma TracedSoFar()
      requires Attached()
      ensures Admissible(bus.first, bus.log) && bus.sys == Run(bus.first, bus.log) && Own(bus.log, opts.agent) == acts
    {
    }

    /** One transaction of this mailman, then the others' turn. */
    method Act(e: Event, round: Round)
      requires Attached() && ByMailman(e, opts.agent) && Enabled(bus.sys, e)
      modifies bus, `acts
      ensures old(bus.log) <= bus.log
      ensures Attached() && acts == old(acts) + [e] && |bus.sys.desks| == |old(bus.sys).desks|
      ensures bus.sys.desks[opts.agent] == Next(old(bus.sys), e).desks[opts.agent]
      ensures opts.agent in bus.sys.parked <==>
        (e.Park? || opts.agent in old(bus.sys).parked) && Unpark(opts.agent) !in round.peers(|acts|)
    {
      hide Coherent;
      ParkedNext(bus.sys, e, opts.agent);
      OwnAppend(bus.log, opts.agent, e);
      bus.Post(e);
      acts := acts + [e];
      bus.Interfere(opts.agent, round.peers(|acts|));
    }

    // ---- Routing ------------------------------------------------------------------------------------------------

    /** The session-id is the exact key; on a hit elsewhere the registry is healed first. */
    method LookUpSession(reg: Registration, round: Round, d0: Routing) returns (pane: Pane, d: Routing)
      requires d0.session.None? && d0.sessionHeal.None?
      ensures d == d0.(session := d.session, sessionHeal := d.sessionHeal)
      ensures SessionAsked(opts, reg, d) && pane == PaneAfterSession(reg, d)
      ensures d.sessionHeal.Some? <==> ResolvedBySession(d) && d.session.value.pane != reg.pane
      ensures TruthfulRouting(round, d0) ==> TruthfulRouting(round, d)
    {
      pane, d := reg.pane, d0;
      if opts.driftCheck && reg.session {
        d := d.(session := Some(round.session));
        match round.session {
          case HostedIn(p) =>
            if p != pane {
              d := d.(sessionHeal := Some(round.sessionHeal));
              if round.sessionHeal { pane := p; }
            }
          case _ =>
        }
      }
    }

    /** The silent-drift guard: who runs in the pane, and where is our agent if not there? */
    method CheckName(pane0: Pane, round: Round, d0: Routing) returns (pane: Pane, block: Option<Block>, d: Routing)
      requires d0.name.None? && d0.lookup.None? && d0.nameHeal.None?
      ensures d == d0.(name := Some(Asked(pane0, round.name(pane0))), lookup := d.lookup, nameHeal := d.nameHeal)
      ensures d.lookup.Some? <==> Named(d, Nobody) || Named(d, AnotherAgent)
      ensures d.nameHeal.Some? <==> d.lookup.Some? && d.lookup.value.FoundIn? && d.lookup.value.pane != pane0
      ensures block == NameBlock(opts, pane0, d) && pane == PaneAfterName(pane0, d)
      ensures TruthfulRouting(round, d0) ==> TruthfulRouting(round, d)
    {
      var name := round.name(pane0);
      pane, block, d := pane0, None, d0.(name := Some(Asked(pane0, name)));
      match name {
        case NameAmbiguous =>
          if !opts.driftSoftFail { block := Some(Drift); }
        case AnotherAgent =>
          d := d.(lookup := Some(round.lookup));
          match round.lookup {
            case LookupFailed =>
            case FoundIn(p) =>
              if p != pane {
                d := d.(nameHeal := Some(round.nameHeal));
                if round.nameHeal { pane := p; }
              } else if !opts.driftSoftFail {
                block := Some(Drift);
              }
            case _ => if !opts.driftSoftFail { block := Some(Drift); }
          }
        case Nobody =>
          d := d.(lookup := Some(round.lookup));
          match round.lookup {
            case FoundIn(p) =>
              if p != pane {
                d := d.(nameHeal := Some(round.nameHeal));
                if round.nameHeal { pane := p; }
              }
            case _ => block := Some(NoLiveSession);
          }
        case _ =>
      }
    }

    /** Both halves of the name path: the drift guard, then the bare-shell gate on the pane it settled on. */
    method CheckTarget(pane0: Pane, reg: Registration, round: Round, d0: Routing)
      returns (pane: Pane, block: Option<Block>, d: Routing)
      requires d0 == NOWHERE_YET.(saturated := d0.saturated, session := d0.session, sessionHeal := d0.sessionHeal,
                                  staleProbe := d0.staleProbe, staleRun := d0.staleRun)
      requires PassedStale(opts, reg, d0) && NameAsked(opts, d0) && pane0 == PaneAfterSession(reg, d0)
      requires d0.sessionHeal.None? && TruthfulRouting(round, d0) && RoutingInPlace(reg, d0)
      ensures d == d0.(name := d.name, lookup := d.lookup, nameHeal := d.nameHeal, accepts := d.accepts)
      ensures TruthfulRouting(round, d) && HealsFit(reg, d) && RoutingInPlace(reg, d)
      ensures block.None? ==> PassedRouting(opts, reg, d) && pane == Aim(reg, d)
      ensures block == Some(NotLive) ==> PassedName(opts, reg, d) && TurnedAway(d)
      ensures block.Some? && block.value != NotLive ==> NameBlock(opts, pane0, d) == block && d.accepts.None?
    {
      pane, block, d := CheckName(pane0, round, d0);
      if block.None? {
        d := d.(accepts := Some(Asked(pane, round.acceptsPaste(pane))));
        if !round.acceptsPaste(pane) { block := Some(NotLive); }
      }
    }

    // ---- Leaving a claimed row ----------------------------------------------------------------------------------

    ghost predicate InHandNow(id: RowId, msg: Row)
      reads `acts, bus
    {
      Attached() && bus.sys.desks[opts.agent] == Holding(id, msg, false) && opts.agent !in bus.sys.parked
    }

    ghost predicate AtHead()
      reads `acts, bus
    {
      Attached() && bus.sys.desks[opts.agent] == Idle
    }

    /** After an ending, the last transaction on record being its own: parked exactly if it parks and nobody
        registered the agent by force at once. */
    predicate Sleeps(round: Round, e: Ending)
      reads `acts, bus
    {
      opts.agent in bus.sys.parked <==> Parks(e) && Unpark(opts.agent) !in round.peers(|acts|)
    }

    method RecoverDelivering(ghost id: RowId, ghost msg: Row, round: Round)
      requires InHandNow(id, msg)
      modifies bus, `acts
      ensures old(bus.log) <= bus.log
      ensures AtHead() && opts.agent !in bus.sys.parked && acts == old(acts) + [Requeue(opts.agent)]
    {
      hide SharedBus.Traced;
      Act(Requeue(opts.agent), round);
    }

    method SetStuck(round: Round)
      requires AtHead()
      modifies bus, `acts
      ensures old(bus.log) <= bus.log
      ensures AtHead() && acts == old(acts) + [Park(opts.agent)]
      ensures opts.agent in bus.sys.parked <==> Unpark(opts.agent) !in round.peers(|acts|)
    {
      hide SharedBus.Traced;
      Act(Park(opts.agent), round);
    }

    method RevertAndPark(ghost id: RowId, ghost msg: Row, parks: bool, round: Round)
      requires InHandNow(id, msg)
      modifies bus, `acts
      ensures old(bus.log) <= bus.log
      ensures AtHead() && (opts.agent in bus.sys.parked <==> parks && Unpark(opts.agent) !in round.peers(|acts|))
      ensures acts == old(acts) + if parks then [Requeue(opts.agent), Park(opts.agent)] else [Requeue(opts.agent)]
    {
      hide SharedBus.Traced, Coherent;
      RecoverDelivering(id, msg, round);
      if parks { SetStuck(round); }
    }

    method MaybeInsertFailureNotice(enabled: bool, msg: Row, round: Round)
      requires Attached() && bus.sys.desks[opts.agent] == Owing(msg, false) && msg.kind != Ping
      requires opts.agent !in bus.sys.parked
      modifies bus, `acts
      ensures old(bus.log) <= bus.log
      ensures AtHead() && opts.agent !in bus.sys.parked && acts == old(acts) + NoticeOrRest(opts.agent, enabled, msg)
    {
      hide SharedBus.Traced;
      if enabled && msg.kind != FailureNotice {
        Act(Notify(opts.agent, FailureNotice), round);
      } else {
        Act(Rest(opts.agent), round);
      }
    }

    method MarkFailedAndNotify(ghost id: RowId, msg: Row, round: Round)
      requires InHandNow(id, msg) && msg.kind != Ping
      modifies bus, `acts
      ensures old(bus.log) <= bus.log
      ensures AtHead() && opts.agent !in bus.sys.parked && acts == old(acts) + Fail(opts, msg)
    {
      hide SharedBus.Traced;
      Act(Finish(opts.agent, MarkedFailed(false)), round);
      MaybeInsertFailureNotice(opts.notifyOnFailed, msg, round);
    }

    /** Answers for the registered pane. */
    method HandlePing(id: RowId, msg: Row, pane: Pane, round: Round)
      requires InHandNow(id, msg) && msg.kind == Ping
      modifies bus, `acts
      ensures old(bus.log) <= bus.log
      ensures AtHead() && opts.agent !in bus.sys.parked
      ensures acts == old(acts) + Duties(opts, msg, Pinged(round.pingHealthy(pane)))
    {
      hide SharedBus.Traced;
      Act(Finish(opts.agent, if round.pingHealthy(pane) then MarkedDelivered(true) else MarkedFailed(false)), round);
      Act(Rest(opts.agent), round);
    }

    // ---- The counters -------------------------------------------------------------------------------------------

    method CountStaleSession() returns (parks: bool, run: nat)
      requires CountersFit() && opts.staleThreshold > 0
      modifies `consecutiveSessionStale, `stales
      ensures CountersFit() && stales == old(stales) + [Miss(())]
      ensures run == TrailingRun(stales) && (parks <==> run % opts.staleThreshold == 0)
    {
      CountMiss(stales, (), opts.staleThreshold, consecutiveSessionStale,
                if consecutiveSessionStale > 0 then Some(()) else None);
      stales := stales + [Miss(())];
      run := TrailingRun(stales);
      consecutiveSessionStale := consecutiveSessionStale + 1;
      parks := consecutiveSessionStale >= opts.staleThreshold;
      if parks { consecutiveSessionStale := 0; }
    }

    method BreakStaleSession()
      requires CountersFit()
      modifies `consecutiveSessionStale, `stales
      ensures CountersFit() && stales == old(stales) + [Break]
    {
      CountBreak(stales, opts.staleThreshold);
      stales := stales + [Break];
      consecutiveSessionStale := 0;
    }

    /** Nothing but this row, if any, is counted as throttled. */
    predicate OnlyThrottled(id: RowId)
      reads `rateLimitedMsg
    {
      rateLimitedMsg.Some? ==> rateLimitedMsg.value == id
    }

    /** A claim of another row forgets the throttled one. */
    method CountClaim(id: RowId)
      requires CountersFit()
      modifies `rateLimitedMsg, `rateLimitedAttempts, `throttles
      ensures CountersFit() && OnlyThrottled(id) && throttles == ThrottlesAtClaim(old(throttles), id)
    {
      TrailingRunIsPositive(throttles);
      CountBreak(throttles, 0);
      throttles := ThrottlesAtClaim(throttles, id);
      if rateLimitedMsg.Some? && rateLimitedMsg.value != id {
        rateLimitedMsg, rateLimitedAttempts := None, 0;
      }
    }

    method CountRateLimit(id: RowId)
      requires CountersFit()
      modifies `rateLimitedMsg, `rateLimitedAttempts, `throttles
      ensures CountersFit() && throttles == old(throttles) + [Miss(id)] && rateLimitedAttempts == TrailingRun(throttles)
    {
      CountMiss(throttles, id, 0, rateLimitedAttempts, rateLimitedMsg);
      throttles := throttles + [Miss(id)];
      if rateLimitedMsg != Some(id) {
        rateLimitedMsg, rateLimitedAttempts := Some(id), 0;
      }
      rateLimitedAttempts := rateLimitedAttempts + 1;
    }

    /** The gate let the row through. */
    method ClearRateLimitState(id: RowId)
      requires CountersFit() && OnlyThrottled(id)
      modifies `rateLimitedMsg, `rateLimitedAttempts, `throttles
      ensures CountersFit() && throttles == old(throttles) + [Break]
    {
      CountBreak(throttles, 0);
      throttles := throttles + [Break];
      if rateLimitedMsg == Some(id) {
        rateLimitedMsg, rateLimitedAttempts := None, 0;
      }
    }

    method CountPaneMiss(id: RowId) returns (parks: bool, run: nat, pause: int)
      requires CountersFit()
      modifies `consecutivePaneFails, `paneFailMsg, `misses
      ensures CountersFit() && misses == old(misses) + [Miss(id)]
      ensures run == TrailingRun(misses) && (parks <==> ParksOn(misses, opts.stuckThreshold))
      ensures parks <==> opts.stuckThreshold > 0 && run % opts.stuckThreshold == 0
      ensures !parks ==> pause == Backoff(if opts.stuckThreshold > 0 then run % opts.stuckThreshold else run)
    {
      CountMiss(misses, id, opts.stuckThreshold, consecutivePaneFails, paneFailMsg);
      misses := misses + [Miss(id)];
      run := TrailingRun(misses);
      if paneFailMsg != Some(id) {
        paneFailMsg, consecutivePaneFails := Some(id), 0;
      }
      consecutivePaneFails := consecutivePaneFails + 1;
      parks := opts.stuckThreshold > 0 && consecutivePaneFails >= opts.stuckThreshold;
      pause := Backoff(consecutivePaneFails);
      if parks { consecutivePaneFails, paneFailMsg := 0, None; }
    }

    method BreakPaneMiss()
      requires CountersFit()
      modifies `consecutivePaneFails, `paneFailMsg, `misses
      ensures CountersFit() && misses == old(misses) + [Break]
    {
      CountBreak(misses, opts.stuckThreshold);
      misses := misses + [Break];
      consecutivePaneFails, paneFailMsg := 0, None;
    }

    // ---- The guards ---------------------------------------------------------------------------------------------

    /** A session hosted nowhere plus a pane nobody can classify: retry a bounded number of times, then park. */
    method CheckStaleSession(ghost id: RowId, ghost msg: Row, pane: Pane, round: Round, d0: Routing)
      returns (e: Option<Ending>, d: Routing)
      requires InHandNow(id, msg) && CountersFit() && d0.staleProbe.None?
      modifies bus, `acts, `consecutiveSessionStale, `stales
      ensures old(bus.log) <= bus.log
      ensures Attached() && CountersFit() && (TruthfulRouting(round, d0) ==> TruthfulRouting(round, d))
      ensures d == d0.(staleProbe := d.staleProbe, staleRun := d.staleRun) && AskedOf(d.staleProbe, pane)
      ensures d.staleProbe.Some? <==>
        d.session.Some? && d.session.value.NotHosted? && opts.staleThreshold > 0 && opts.prePasteSafety
      ensures stales == old(stales) + StaleFinding(d)
      ensures StuckOnStaleSession(opts, d) ==> d.staleRun == TrailingRun(stales)
      ensures e.None? ==> InHandNow(id, msg) && acts == old(acts) && !StuckOnStaleSession(opts, d)
      ensures e.Some? ==>
        && StuckOnStaleSession(opts, d)
        && e.value == (if d.staleRun % opts.staleThreshold == 0 then StaleParked else StaleDeferred)
        && AtHead() && acts == old(acts) + Duties(opts, msg, e.value)
        && Sleeps(round, e.value)
    {
      hide Next, Enabled, Coherent, Own, Backoff, TrailingRun, SharedBus.Traced;
      e, d := None, d0;
      if !(d.session.Some? && d.session.value.NotHosted?) {
        BreakStaleSession();
      } else if opts.staleThreshold > 0 && opts.prePasteSafety {
        d := d.(staleProbe := Some(Asked(pane, round.staleProbe(pane))));
        if round.staleProbe(pane) == Seen(Unknown) {
          var parks, run := CountStaleSession();
          d := d.(staleRun := run);
          RevertAndPark(id, msg, parks, round);
          e := Some(if parks then StaleParked else StaleDeferred);
        } else {
          BreakStaleSession();
        }
      }
    }

    /** MarkVerifiedByDedupe on the original, MarkFailed on the copy, a dedupe notice to its sender. */
    method Absorb(ghost id: RowId, msg: Row, original: RowId, round: Round)
      requires InHandNow(id, msg) && msg.kind != Ping
      modifies bus, `acts
      ensures old(bus.log) <= bus.log
      ensures AtHead() && opts.agent !in bus.sys.parked && acts == old(acts) + Duties(opts, msg, Absorbed(original))
    {
      hide Coherent, Own, SharedBus.Traced;
      Act(Confirm(opts.agent, original), round);
      Act(Finish(opts.agent, MarkedFailed(true)), round);
      if msg.kind == Message {
        Act(Notify(opts.agent, DedupeNotice), round);
      } else {
        Act(Rest(opts.agent), round);
      }
    }

    /** A prior copy that was left in the input box and is now visible in the pane absorbs this one. */
    method CheckPriorDelivery(id: RowId, msg: Row, pane: Pane, round: Round, d0: Dossier)
      returns (e: Option<Ending>, d: Dossier)
      requires InHandNow(id, msg) && msg.kind != Ping && d0.prior.None?
      modifies bus, `acts
      ensures old(bus.log) <= bus.log
      ensures Attached() && (Truthful(round, msg, d0) ==> Truthful(round, msg, d))
      ensures d == d0.(prior := d.prior) && AskedOf(d.prior, pane)
      ensures d.prior.Some? && d.prior.value.answer.PriorVisible? ==>
        IsUnverifiedCopy(old(bus.sys).rows, d.prior.value.answer.original, msg)
      ensures d.prior.Some? && d.prior.value.answer.PriorVisible? ==>
        var i, rows := d.prior.value.answer.original, old(bus.sys).rows;
        && round.prior == Some(i) && i < |rows| && rows[i].state == Delivered(false)
        && rows[i].sender == msg.sender && rows[i].recipient == msg.recipient && rows[i].body == msg.body
      ensures d.prior.Some? && d.prior.value.answer.NoPrior? ==>
        round.prior.None? || forall i | i == round.prior.value && i < |old(bus.sys).rows| ::
          var r := old(bus.sys).rows[i];
          r.state != Delivered(false) || (r.sender, r.recipient, r.body) != (msg.sender, msg.recipient, msg.body)
      ensures e.None? ==> InHandNow(id, msg) && acts == old(acts) && PassedDedupe(opts, d)
      ensures e.Some? ==>
        && opts.dedupe && d.prior.Some? && d.prior.value.answer.PriorVisible?
        && e.value == Absorbed(d.prior.value.answer.original)
        && AtHead() && opts.agent !in bus.sys.parked && acts == old(acts) + Duties(opts, msg, e.value)
    {
      hide Next, Enabled, Coherent, Own, SharedBus.Traced;
      e, d := None, d0;
      if !opts.dedupe { return; }
      var found := NoPrior;
      if round.prior.Some? && IsUnverifiedCopy(bus.sys.rows, round.prior.value, msg) {
        found := match round.priorVisible(pane)
          case None => PriorUnreadable
          case Some(visible) => if visible then PriorVisible(round.prior.value) else PriorGone;
      }
      d := d.(prior := Some(Asked(pane, found)));
      if found.PriorVisible? {
        Absorb(id, msg, found.original, round);
        e := Some(Absorbed(found.original));
      }
    }

    method ArchiveStrandedDraft(ghost id: RowId, ghost msg: Row, content: string, round: Round)
      requires InHandNow(id, msg) && msg.kind != StrandedDraft
      modifies bus, `acts
      ensures old(bus.log) <= bus.log
      ensures InHandNow(id, msg) && acts == old(acts) + [Archive(opts.agent, content)]
    {
      hide SharedBus.Traced;
      Act(Archive(opts.agent, content), round);
    }

    method ExitHolding(ghost id: RowId, ghost msg: Row, round: Round)
      requires InHandNow(id, msg)
      modifies bus, `acts
      ensures old(bus.log) <= bus.log
      ensures Attached() && bus.sys.desks[opts.agent] == Down && opts.agent !in bus.sys.parked
      ensures acts == old(acts) + [Stop(opts.agent)]
    {
      hide SharedBus.Traced;
      Act(Stop(opts.agent), round);
    }

    /** The gate said no: exit, or revert and wait. */
    method DeferAtGate(id: RowId, msg: Row, saw: GateAnswer, round: Round, d0: Dossier) returns (e: Ending, d: Dossier)
      requires InHandNow(id, msg) && CountersFit() && !GatePasses(msg.forced, saw)
      modifies bus, `acts, `rateLimitedMsg, `rateLimitedAttempts, `throttles
      ensures old(bus.log) <= bus.log
      ensures Attached() && CountersFit() && opts.agent !in bus.sys.parked
      ensures d == d0.(throttleRun := d.throttleRun)
      ensures throttles == old(throttles) + if saw.SawRateLimit? then [Miss(id)] else []
      ensures saw.SawRateLimit? ==> d.throttleRun == TrailingRun(throttles)
      ensures acts == old(acts) + Duties(opts, msg, e)
      ensures if saw.Cancelled? then e == GateStopped && bus.sys.desks[opts.agent] == Down
              else e == GateDeferred(saw, GatePause(saw, d)) && AtHead()
    {
      hide Next, Enabled, Coherent, Own, Backoff, TrailingRun, SharedBus.Traced;
      d := d0;
      if saw.Cancelled? {
        ExitHolding(id, msg, round);
        e := GateStopped;
      } else {
        if saw.SawRateLimit? {
          CountRateLimit(id);
          d := d.(throttleRun := rateLimitedAttempts);
        }
        RecoverDelivering(id, msg, round);
        e := GateDeferred(saw, GatePause(saw, d));
      }
    }

    /** What the operator had typed is kept as a row of its own, except while such a row is being delivered. */
    method ArchiveStaleInput(ghost id: RowId, msg: Row, pane: Pane, round: Round, d0: Dossier) returns (d: Dossier)
      requires InHandNow(id, msg) && d0.archived.None?
      modifies bus, `acts
      ensures old(bus.log) <= bus.log
      ensures InHandNow(id, msg) && d == d0.(archived := d.archived)
      ensures acts == old(acts) + Archived(opts.agent, d)
      ensures d.archived == Draft(round, msg, pane)
    {
      hide Next, Enabled, Coherent, Own, SharedBus.Traced;
      d := d0;
      if round.stale(pane) && round.input(pane) != "" && msg.kind != StrandedDraft {
        var content := round.input(pane); // the gate's snapshot, in case the re-read fails
        if round.reread(pane).Some? { content := round.reread(pane).value; }
        if content != "" {
          d := d.(archived := Some(content));
          ArchiveStrandedDraft(id, msg, content, round);
        }
      }
    }

    /** Waits for an idle pane; a throttled one is left alone, a scrolled one too, a draft is archived. */
    method ObserveGate(id: RowId, msg: Row, pane: Pane, round: Round, d0: Dossier) returns (e: Option<Ending>, d: Dossier)
      requires InHandNow(id, msg) && CountersFit() && OnlyThrottled(id) && d0.gate.None? && d0.archived.None?
      modifies bus, `acts, `rateLimitedMsg, `rateLimitedAttempts, `throttles
      ensures old(bus.log) <= bus.log
      ensures Attached() && CountersFit() && (Truthful(round, msg, d0) ==> Truthful(round, msg, d))
      ensures d == d0.(gate := d.gate, throttleRun := d.throttleRun, spread := d.spread, archived := d.archived)
      ensures (d.gate.Some? <==> opts.gate) && AskedOf(d.gate, pane)
      ensures throttles == old(throttles) + GateFinding(id, msg.forced, d)
      ensures d.gate.Some? && d.gate.value.answer.SawRateLimit? && !msg.forced ==>
        e.Some? && d.throttleRun == TrailingRun(throttles)
      ensures e.None? ==> InHandNow(id, msg) && PassedGate(opts, msg.forced, d) && acts == old(acts) + Archived(opts.agent, d)
      ensures e.Some? ==>
        && opts.gate && !GatePasses(msg.forced, d.gate.value.answer) && d.archived.None?
        && acts == old(acts) + Duties(opts, msg, e.value) && opts.agent !in bus.sys.parked
        && (if d.gate.value.answer.Cancelled? then e.value == GateStopped && bus.sys.desks[opts.agent] == Down
            else e.value == GateDeferred(d.gate.value.answer, GatePause(d.gate.value.answer, d)) && AtHead())
    {
      hide Next, Enabled, Coherent, Own, Backoff, TrailingRun, Duties, CountersFit, SharedBus.Traced;
      e, d := None, d0;
      if !opts.gate { return; }
      var saw := round.gate(pane);
      d := d.(gate := Some(Asked(pane, saw)), spread := round.spread);
      if !GatePasses(msg.forced, saw) {
        var ending;
        ending, d := DeferAtGate(id, msg, saw, round, d);
        e := Some(ending);
      } else {
        ClearRateLimitState(id);
        d := ArchiveStaleInput(id, msg, pane, round, d);
      }
    }

    /** One more reading immediately before the paste; a vanished pane backs off and eventually parks. */
    method ProbeBeforePaste(id: RowId, msg: Row, pane: Pane, round: Round, d0: Dossier)
      returns (e: Option<Ending>, d: Dossier)
      requires InHandNow(id, msg) && CountersFit() && d0.probe.None?
      modifies bus, `acts, `consecutivePaneFails, `paneFailMsg, `misses
      ensures old(bus.log) <= bus.log
      ensures Attached() && CountersFit() && (Truthful(round, msg, d0) ==> Truthful(round, msg, d))
      ensures d == d0.(probe := d.probe, missRun := d.missRun) && AskedOf(d.probe, pane)
      ensures d.probe.Some? <==> opts.prePasteSafety
      ensures d.probe.Some? && d.probe.value.answer.PaneGone? ==> e.Some? && d.missRun == TrailingRun(misses)
      ensures misses == old(misses) + ProbeFinding(id, d)
      ensures e.None? ==> InHandNow(id, msg) && acts == old(acts) && PassedProbe(opts, msg.forced, d)
      ensures opts.prePasteSafety ==> d.probe == Some(Asked(pane, round.probe(pane)))
      ensures opts.prePasteSafety ==>
        (e.None? <==> round.probe(pane) in {Seen(Working), Seen(Resting)}
                                           + (if msg.forced then {Seen(RateLimited), Seen(UsageLimited)} else {}))
      ensures e.Some? ==>
        && opts.prePasteSafety && AtHead() && acts == old(acts) + Duties(opts, msg, e.value)
        && Sleeps(round, e.value) && HeldBack(msg.forced, d, e.value)
    {
      hide Next, Enabled, Coherent, Own, Backoff, TrailingRun, Duties, HeldBack, CountersFit, SharedBus.Traced;
      e, d := None, d0;
      if !opts.prePasteSafety { return; }
      d := d.(probe := Some(Asked(pane, round.probe(pane))));
      if SafeToPaste(msg.forced, round.probe(pane)) {
        BreakPaneMiss();
      } else {
        var ending;
        ending, d := AbortPaste(id, msg, round, d);
        e := Some(ending);
      }
    }

    /** The last reading is unsafe: revert, and count a vanished pane. */
    method AbortPaste(id: RowId, msg: Row, round: Round, d0: Dossier) returns (e: Ending, d: Dossier)
      requires InHandNow(id, msg) && CountersFit() && d0.probe.Some? && !SafeToPaste(msg.forced, d0.probe.value.answer)
      modifies bus, `acts, `consecutivePaneFails, `paneFailMsg, `misses
      ensures old(bus.log) <= bus.log
      ensures AtHead() && CountersFit() && d == d0.(missRun := d.missRun) && HeldBack(msg.forced, d, e)
      ensures d.probe.value.answer.PaneGone? ==> d.missRun == TrailingRun(misses)
      ensures misses == old(misses) + ProbeFinding(id, d)
      ensures acts == old(acts) + Duties(opts, msg, e) && Sleeps(round, e)
    {
      hide Next, Enabled, Coherent, Own, Backoff, TrailingRun, CountersFit, SharedBus.Traced;
      d := d0;
      if d0.probe.value.answer.PaneGone? {
        var parks, run, pause := CountPaneMiss(id);
        d := d.(missRun := run);
        RevertAndPark(id, msg, parks, round);
        e := if parks then PaneParked else PaneDeferred(pause);
      } else {
        BreakPaneMiss();
        RecoverDelivering(id, msg, round);
        e := ProbeDeferred;
      }
    }

    /** The ending an unsafe last reading forces. */
    predicate HeldBack(forced: bool, d: Dossier, e: Ending)
      requires d.probe.Some?
    {
      match e
      case ProbeDeferred => !d.probe.value.answer.PaneGone? && !SafeToPaste(forced, d.probe.value.answer)
      case PaneParked => d.probe.value.answer.PaneGone? && opts.stuckThreshold > 0 && d.missRun % opts.stuckThreshold == 0
      case PaneDeferred(pause) =>
        && d.probe.value.answer.PaneGone? && !(opts.stuckThreshold > 0 && d.missRun % opts.stuckThreshold == 0)
        && pause == Backoff(if opts.stuckThreshold > 0 then d.missRun % opts.stuckThreshold else d.missRun)
      case _ => false
    }

    // ---- Delivery -----------------------------------------------------------------------------------------------

    /** deliverOne, and once more in the agent's rediscovered pane if tmux says the first one is gone. */
    method PasteAndHeal(pane: Pane, ghost reg: Registration, msg: Row, round: Round, d0: Dossier)
      returns (r: PasteResult, d: Dossier)
      requires d0 == d0.(first := None, healLookup := None, healWrite := None, retry := None, settleStop := None)
      requires pane == Aim(reg, d0.routing) && InPlace(reg, d0)
      ensures d == d0.(first := d.first, healLookup := d.healLookup, healWrite := d.healWrite, retry := d.retry,
                       settleStop := d.settleStop)
      ensures AttemptFits(opts, reg, msg, d, r) && InPlace(reg, d) && (Truthful(round, msg, d0) ==> Truthful(round, msg, d))
    {
      d := d0;
      if msg.kind == Control && !round.supported {
        r := Unsupported;
        return;
      }
      r := round.first(pane);
      d := d.(first := Some(Asked(pane, r)));
      if r.PaneMissing? {
        d := d.(healLookup := Some(round.healLookup));
        if round.healLookup.FoundIn? && round.healLookup.pane != pane {
          d := d.(healWrite := Some(round.healWrite));
          if round.healWrite {
            var newPane := round.healLookup.pane;
            r := round.second(newPane);
            d := d.(retry := Some(Asked(newPane, r)));
          }
        }
      }
      if r.Pasted? && opts.postCompactPause && IsSessionReset(msg) {
        d := d.(settleStop := Some(round.stopAtSettle));
      }
    }

    /** A session reset is followed by a settle wait, and by the rows staged for resume unless the wait is cut short. */
    method MarkPasted(ghost id: RowId, msg: Row, stop: bool, round: Round) returns (e: Ending)
      requires InHandNow(id, msg) && msg.kind != Ping
      modifies bus, `acts
      ensures old(bus.log) <= bus.log
      ensures e == if stop then ResetInterrupted else Attempted(Pasted)
      ensures Attached() && opts.agent !in bus.sys.parked && acts == old(acts) + Duties(opts, msg, e)
      ensures bus.sys.desks[opts.agent] == if stop then Down else Idle
    {
      hide Coherent, Own, TrimSpace, SharedBus.Traced;
      MarkLanded(id, msg, true, round);
      Act(Rest(opts.agent), round);
      e := Attempted(Pasted);
      if stop {
        Act(Stop(opts.agent), round);
        e := ResetInterrupted;
      } else if IsSessionReset(msg) {
        Act(Release(opts.agent), round);
      }
    }

    /** The outcome switch. */
    method MarkOutcome(ghost id: RowId, msg: Row, r: PasteResult, stop: bool, round: Round) returns (e: Ending)
      requires InHandNow(id, msg) && msg.kind != Ping && (r.Unsupported? ==> msg.kind == Control)
      requires stop ==> r.Pasted?
      modifies bus, `acts
      ensures old(bus.log) <= bus.log
      ensures e == if stop then ResetInterrupted else Attempted(r)
      ensures Attached() && opts.agent !in bus.sys.parked && acts == old(acts) + Duties(opts, msg, e)
      ensures bus.sys.desks[opts.agent] == if Exits(e) then Down else Idle
    {
      hide Coherent, Own, IsSessionReset, SharedBus.Traced;
      e := Attempted(r);
      match r {
        case Pasted =>
          e := MarkPasted(id, msg, stop, round);
        case SubmittedExternally => MarkLanded(id, msg, true, round); Act(Rest(opts.agent), round);
        case Unverified =>
          MarkLanded(id, msg, false, round);
          MaybeInsertFailureNotice(opts.notifyOnInputBox, msg, round);
        case Unsupported =>
          Act(Finish(opts.agent, MarkedDelivered(true)), round);
          Act(Rest(opts.agent), round);
        case InputRaced => RecoverDelivering(id, msg, round);
        case PriorPasteStuck => RecoverDelivering(id, msg, round);
        case _ => MarkFailedAndNotify(id, msg, round);
      }
    }

    method MarkLanded(ghost id: RowId, ghost msg: Row, verified: bool, round: Round)
      requires InHandNow(id, msg) && msg.kind != Ping
      modifies bus, `acts
      ensures old(bus.log) <= bus.log
      ensures Attached() && bus.sys.desks[opts.agent] == Owing(msg, false) && opts.agent !in bus.sys.parked
      ensures acts == old(acts) + [Land(opts.agent), Finish(opts.agent, MarkedDelivered(verified))]
    {
      hide SharedBus.Traced;
      Act(Land(opts.agent), round);
      Act(Finish(opts.agent, MarkedDelivered(verified)), round);
    }

    // ---- One claimed row ----------------------------------------------------------------------------------------

    /** Which pane, if any: session-id, stale-session exit, drift guard, bare-shell gate. */
    method Route(ghost id: RowId, msg: Row, reg: Registration, round: Round, d0: Routing)
      returns (early: Option<Ending>, pane: Pane, d: Routing)
      requires InHandNow(id, msg) && CountersFit() && msg.kind != Ping
      requires d0 == NOWHERE_YET.(saturated := d0.saturated) && PassedCap(opts, d0) && TruthfulRouting(round, d0)
      modifies bus, `acts, `consecutiveSessionStale, `stales
      ensures old(bus.log) <= bus.log
      ensures Attached() && CountersFit() && TruthfulRouting(round, d) && HealsFit(reg, d) && RoutingInPlace(reg, d)
      ensures d.saturated == d0.saturated && stales == old(stales) + StaleFinding(d)
      ensures StuckOnStaleSession(opts, d) ==> d.staleRun == TrailingRun(stales)
      ensures early.None? ==>
        InHandNow(id, msg) && acts == old(acts) && PassedRouting(opts, reg, d) && pane == Aim(reg, d)
      ensures early.Some? ==>
        && (early.value.Blocked? || early.value.StaleDeferred? || early.value.StaleParked?)
        && Explains(opts, reg, msg, Unopened(d), early.value) && AtHead()
        && acts == old(acts) + Duties(opts, msg, early.value)
        && Sleeps(round, early.value)
    {
      hide Next, Enabled, Coherent, Own, Backoff, TrailingRun, CountersFit, SharedBus.Traced;
      pane, d := LookUpSession(reg, round, d0);
      early, d := CheckStaleSession(id, msg, pane, round, d);
      if early.Some? || !opts.driftCheck || ResolvedBySession(d) { return; }
      early, pane, d := RouteByName(id, msg, pane, reg, round, d);
    }

    /** A blocked row is failed, and its sender told. */
    method RouteByName(ghost id: RowId, msg: Row, pane0: Pane, reg: Registration, round: Round, d0: Routing)
      returns (early: Option<Ending>, pane: Pane, d: Routing)
      requires InHandNow(id, msg) && msg.kind != Ping
      requires d0 == NOWHERE_YET.(saturated := d0.saturated, session := d0.session, sessionHeal := d0.sessionHeal,
                                  staleProbe := d0.staleProbe, staleRun := d0.staleRun)
      requires PassedStale(opts, reg, d0) && NameAsked(opts, d0) && pane0 == PaneAfterSession(reg, d0)
      requires d0.sessionHeal.None? && TruthfulRouting(round, d0) && RoutingInPlace(reg, d0)
      modifies bus, `acts
      ensures old(bus.log) <= bus.log
      ensures Attached() && TruthfulRouting(round, d) && HealsFit(reg, d) && RoutingInPlace(reg, d)
      ensures d == d0.(name := d.name, lookup := d.lookup, nameHeal := d.nameHeal, accepts := d.accepts)
      ensures opts.agent !in bus.sys.parked
      ensures early.None? ==>
        InHandNow(id, msg) && acts == old(acts) && PassedRouting(opts, reg, d) && pane == Aim(reg, d)
      ensures early.Some? ==>
        && early.value.Blocked? && Explains(opts, reg, msg, Unopened(d), early.value) && AtHead()
        && acts == old(acts) + Duties(opts, msg, early.value)
    {
      hide Next, Enabled, Coherent, Own, Backoff, TrailingRun, SharedBus.Traced;
      var block;
      early := None;
      pane, block, d := CheckTarget(pane0, reg, round, d0);
      if block.Some? {
        MarkFailedAndNotify(id, msg, round);
        early := Some(Blocked(block.value));
      }
    }

    /** The dossiers of a ping and of a row held back for its provider. */
    lemma NothingAskedYet(opts: Options, reg: Registration, msg: Row, round: Round)
      ensures Truthful(round, msg, Unopened(NOWHERE_YET)) && TruthfulRouting(round, NOWHERE_YET)
      ensures forall healthy | msg.kind == Ping :: Explains(opts, reg, msg, Unopened(NOWHERE_YET), Pinged(healthy))
      ensures var d := NOWHERE_YET.(saturated := Some(round.providerSaturated));
        && TruthfulRouting(round, d) && Truthful(round, msg, Unopened(d))
        && (opts.providerCap && d.saturated.value && msg.kind != Ping ==> Explains(opts, reg, msg, Unopened(d), CapDeferred))
    {
    }

    lemma OnlyRouted(round: Round, msg: Row, d: Routing)
      requires TruthfulRouting(round, d)
      ensures Truthful(round, msg, Unopened(d))
    {
      hide TruthfulRouting;
    }

    /** From the claim to the terminal mark or the revert: the source's order of guards. */
    method Handle(id: RowId, msg: Row, reg: Registration, round: Round) returns (e: Ending, d: Dossier)
      requires InHandNow(id, msg) && CountersFit() && OnlyThrottled(id)
      modifies bus, `acts, `consecutiveSessionStale, `stales, `rateLimitedMsg, `rateLimitedAttempts, `throttles
      modifies `consecutivePaneFails, `paneFailMsg, `misses
      ensures old(bus.log) <= bus.log
      ensures Attached() && CountersFit()
      ensures Explains(opts, reg, msg, d, e) && Truthful(round, msg, d) && RunsFit(opts, msg.forced, d, Found())
      ensures e.Pinged? ==> e.healthy == round.pingHealthy(reg.pane)
      ensures acts == old(acts) + Archived(opts.agent, d) + Duties(opts, msg, e)
      ensures bus.sys.desks[opts.agent] == if Exits(e) then Down else Idle
      ensures Sleeps(round, e)
      ensures misses == old(misses) + ProbeFinding(id, d)
      ensures stales == old(stales) + if ReachesRouting(msg, d.routing) then StaleFinding(d.routing) else []
      ensures throttles == old(throttles) + GateFinding(id, msg.forced, d)
    {
      hide Next, Enabled, Coherent, Own, Backoff, TrailingRun, CountersFit, NameBlock, SharedBus.Traced;
      hide Explains, Truthful, HealsFit, PassedRouting, RoutingInPlace, TruthfulRouting, Aim;
      NothingAskedYet(opts, reg, msg, round);
      d := Unopened(NOWHERE_YET);
      if msg.kind == Ping {
        HandlePing(id, msg, reg.pane, round);
        e := Pinged(round.pingHealthy(reg.pane));
        return;
      }
      var routing := NOWHERE_YET;
      if opts.providerCap {
        routing := routing.(saturated := Some(round.providerSaturated));
        if round.providerSaturated {
          RecoverDelivering(id, msg, round);
          return CapDeferred, Unopened(routing);
        }
      }
      var early, pane;
      early, pane, routing := Route(id, msg, reg, round, routing);
      if early.Some? {
        OnlyRouted(round, msg, routing);
        return early.value, Unopened(routing);
      }
      e, d := PasteWhenSafe(id, msg, pane, reg, round, routing);
    }

    /** A settled row: routing is done and the pane it chose is `pane`. */
    ghost predicate Settled(id: RowId, msg: Row, pane: Pane, reg: Registration, round: Round, routing: Routing)
      reads `acts, bus
    {
      && InHandNow(id, msg) && msg.kind != Ping
      && PassedRouting(opts, reg, routing) && HealsFit(reg, routing) && RoutingInPlace(reg, routing)
      && TruthfulRouting(round, routing) && pane == Aim(reg, routing)
    }

    /** What an early ending of the waiting stages leaves behind. */
    ghost predicate LeftEarly(reg: Registration, msg: Row, round: Round, d: Dossier, e: Ending)
      reads `acts, bus
    {
      && Attached() && Explains(opts, reg, msg, d, e) && !e.Attempted? && !e.ResetInterrupted? && !e.Pinged?
      && bus.sys.desks[opts.agent] == (if Exits(e) then Down else Idle)
      && Sleeps(round, e)
    }

    /** Dedupe, then the observe-gate. */
    method WaitForGate(id: RowId, msg: Row, pane: Pane, reg: Registration, round: Round, routing: Routing)
      returns (early: Option<Ending>, d: Dossier)
      requires Settled(id, msg, pane, reg, round, routing) && CountersFit() && OnlyThrottled(id)
      modifies bus, `acts, `rateLimitedMsg, `rateLimitedAttempts, `throttles
      ensures old(bus.log) <= bus.log
      ensures Attached() && CountersFit() && Truthful(round, msg, d) && InPlace(reg, d)
      ensures d == Unopened(routing).(prior := d.prior, gate := d.gate, throttleRun := d.throttleRun,
                                      spread := d.spread, archived := d.archived)
      ensures throttles == old(throttles) + GateFinding(id, msg.forced, d)
      ensures d.gate.Some? && d.gate.value.answer.SawRateLimit? && !msg.forced ==> d.throttleRun == TrailingRun(throttles)
      ensures early.None? ==>
        InHandNow(id, msg) && PassedUpToGate(opts, reg, msg, d) && acts == old(acts) + Archived(opts.agent, d)
      ensures early.Some? ==>
        && LeftEarly(reg, msg, round, d, early.value) && d.archived.None?
        && acts == old(acts) + Duties(opts, msg, early.value)
    {
      hide Next, Enabled, Coherent, Own, Backoff, TrailingRun, CountersFit, SharedBus.Traced;
      hide PassedRouting, HealsFit, RoutingInPlace, TruthfulRouting, Duties, StuckOnStaleSession, SafeToPaste, GatePause;
      early, d := CheckPriorDelivery(id, msg, pane, round, Unopened(routing));
      if early.Some? { return; }
      early, d := ObserveGate(id, msg, pane, round, d);
    }

    /** Dedupe, observe-gate, pre-paste probe. */
    method WaitUntilSafe(id: RowId, msg: Row, pane: Pane, reg: Registration, round: Round, routing: Routing)
      returns (early: Option<Ending>, d: Dossier)
      requires Settled(id, msg, pane, reg, round, routing) && CountersFit() && OnlyThrottled(id)
      modifies bus, `acts, `rateLimitedMsg, `rateLimitedAttempts, `throttles, `consecutivePaneFails, `paneFailMsg, `misses
      ensures old(bus.log) <= bus.log
      ensures Attached() && CountersFit() && Truthful(round, msg, d) && InPlace(reg, d) && d.routing == routing
      ensures misses == old(misses) + ProbeFinding(id, d)
      ensures throttles == old(throttles) + GateFinding(id, msg.forced, d)
      ensures d.gate.Some? && d.gate.value.answer.SawRateLimit? && !msg.forced ==> d.throttleRun == TrailingRun(throttles)
      ensures d.probe.Some? && d.probe.value.answer.PaneGone? ==> d.missRun == TrailingRun(misses)
      ensures d == d.(first := None, healLookup := None, healWrite := None, retry := None, settleStop := None)
      ensures early.None? ==>
        && InHandNow(id, msg) && PassedUpToGate(opts, reg, msg, d) && PassedProbe(opts, msg.forced, d)
        && acts == old(acts) + Archived(opts.agent, d)
      ensures early.Some? ==>
        && LeftEarly(reg, msg, round, d, early.value)
        && acts == old(acts) + Archived(opts.agent, d) + Duties(opts, msg, early.value)
    {
      hide Next, Enabled, Coherent, Own, Backoff, TrailingRun, CountersFit, SharedBus.Traced;
      hide PassedRouting, HealsFit, RoutingInPlace, TruthfulRouting, Duties, StuckOnStaleSession, SafeToPaste, GatePasses, GatePause;
      early, d := WaitForGate(id, msg, pane, reg, round, routing);
      if early.Some? { return; }
      early, d := ProbeBeforePaste(id, msg, pane, round, d);
    }

    /** The second half of an iteration: the target pane is settled. */
    method PasteWhenSafe(id: RowId, msg: Row, pane: Pane, reg: Registration, round: Round, routing: Routing)
      returns (e: Ending, d: Dossier)
      requires Settled(id, msg, pane, reg, round, routing) && CountersFit() && OnlyThrottled(id)
      modifies bus, `acts, `rateLimitedMsg, `rateLimitedAttempts, `throttles, `consecutivePaneFails, `paneFailMsg, `misses
      ensures old(bus.log) <= bus.log
      ensures Attached() && CountersFit() && d.routing == routing
      ensures Explains(opts, reg, msg, d, e) && Truthful(round, msg, d) && !e.Pinged?
      ensures acts == old(acts) + Archived(opts.agent, d) + Duties(opts, msg, e)
      ensures bus.sys.desks[opts.agent] == if Exits(e) then Down else Idle
      ensures Sleeps(round, e)
      ensures misses == old(misses) + ProbeFinding(id, d)
      ensures throttles == old(throttles) + GateFinding(id, msg.forced, d)
      ensures d.gate.Some? && d.gate.value.answer.SawRateLimit? && !msg.forced ==> d.throttleRun == TrailingRun(throttles)
      ensures d.probe.Some? && d.probe.value.answer.PaneGone? ==> d.missRun == TrailingRun(misses)
    {
      hide Next, Enabled, Coherent, Own, Backoff, TrailingRun, CountersFit, SharedBus.Traced;
      hide PassedRouting, HealsFit, InPlace, Aim, TruthfulRouting, Duties, Truthful, Explains;
      var early;
      early, d := WaitUntilSafe(id, msg, pane, reg, round, routing);
      if early.Some? { return early.value, d; }
      var r;
      r, d := PasteAndHeal(pane, reg, msg, round, d);
      e := MarkOutcome(id, msg, r, Yes(d.settleStop), round);
      Justify(opts, reg, msg, d, r);
    }

    // ---- The loop -----------------------------------------------------------------------------------------------

    /** One alert per freeze: the latch re-arms when the queue drains or moves again. */
    method SweepFreshness(round: Round)
      requires AtHead() && opts.agent !in bus.sys.parked
      modifies bus, `acts, `freshnessAlerted
      ensures old(bus.log) <= bus.log
      ensures AtHead() && opts.agent !in bus.sys.parked
      ensures acts == old(acts) + Alarm(opts, old(freshnessAlerted), round.sweep)
      ensures Alarm(opts, old(freshnessAlerted), round.sweep) == [] ==> bus.sys == old(bus.sys)
      ensures freshnessAlerted == Latch(opts, old(freshnessAlerted), round.sweep)
    {
      hide Coherent, SharedBus.Traced;
      if opts.conductor.None? || opts.conductor.value == opts.agent { return; }
      match round.sweep {
        case Drained => freshnessAlerted := false;
        case Moving => freshnessAlerted := false;
        case Stale(held) =>
          if !freshnessAlerted && !held {
            Act(Alert(opts.agent, opts.conductor.value), round);
            freshnessAlerted := true;
          }
        case _ =>
      }
    }

    method ClaimNext(pick: RowId, round: Round) returns (msg: Option<Row>)
      requires AtHead() && opts.agent !in bus.sys.parked
      modifies bus, `acts
      ensures old(bus.log) <= bus.log
      ensures Attached() && opts.agent !in bus.sys.parked
      ensures msg.Some? <==> Claimable(old(bus.sys).rows, pick, opts.agent)
      ensures msg.None? ==> AtHead() && acts == old(acts)
      ensures msg.Some? ==>
        && InHandNow(pick, msg.value) && acts == old(acts) + [Claim(opts.agent, pick)]
        && msg.value == old(bus.sys).rows[pick].(state := Delivering) && msg.value.recipient == opts.agent
    {
      hide Coherent, SharedBus.Traced;
      if Claimable(bus.sys.rows, pick, opts.agent) {
        msg := Some(bus.sys.rows[pick].(state := Delivering));
        Act(Claim(opts.agent, pick), round);
      } else {
        msg := None;
      }
    }

    /** The wait that closes an iteration; the stop signal ends it and the process. */
    method StopOrSleep(stop: bool, round: Round)
      requires AtHead()
      modifies bus, `acts
      ensures old(bus.log) <= bus.log
      ensures Attached() && bus.sys.desks[opts.agent] == if stop then Down else Idle
      ensures acts == old(acts) + if stop then [Stop(opts.agent)] else []
      ensures !stop ==> bus.sys == old(bus.sys)
      ensures opts.agent !in old(bus.sys).parked ==> opts.agent !in bus.sys.parked
    {
      hide Coherent, SharedBus.Traced;
      if stop { Act(Stop(opts.agent), round); }
    }

    method PromoteOnSelfCompact(round: Round)
      requires AtHead() && opts.agent !in bus.sys.parked
      modifies bus, `acts
      ensures old(bus.log) <= bus.log
      ensures AtHead() && opts.agent !in bus.sys.parked && acts == old(acts) + Released(opts, round)
      ensures !round.selfCompacted ==> bus.sys == old(bus.sys)
    {
      hide Coherent, SharedBus.Traced;
      if round.selfCompacted { Act(Release(opts.agent), round); }
    }

    /** Claim a row, if there is one, and see it through. */
    method TakeRow(reg: Registration, round: Round) returns (o: Outcome)
      requires AtHead() && CountersFit() && opts.agent !in bus.sys.parked
      modifies bus, `acts, `consecutiveSessionStale, `stales, `rateLimitedMsg, `rateLimitedAttempts, `throttles
      modifies `consecutivePaneFails, `paneFailMsg, `misses
      ensures old(bus.log) <= bus.log
      ensures Valid() && bus.sys.desks[opts.agent] == if Stops(o) then Down else Idle
      ensures Swept(o) && acts == old(acts) + Work(opts, o)
      ensures opts.agent in bus.sys.parked <==> JustParked(o) && Unpark(opts.agent) !in round.peers(|acts|)
      ensures o.Idled? ==> (o.stopped <==> round.stopAtSleep)
      ensures o.Handled? <==> Claimable(old(bus.sys).rows, round.pick, opts.agent)
      ensures o.Handled? ==> o.id == round.pick && o.msg == old(bus.sys).rows[o.id].(state := Delivering)
      ensures Found() == FindingsAfter(old(Found()), o)
      ensures o.Handled? ==> Accounted(opts, reg, round, o, Found())
      ensures !o.Handled? ==> unchanged(`consecutivePaneFails, `paneFailMsg, `consecutiveSessionStale)
    {
      hide Next, Enabled, Coherent, Own, Backoff, TrailingRun, CountersFit, SharedBus.Traced;
      hide Explains, Truthful, RunsFit, Duties, Archived, ProbeFinding, GateFinding, StaleFinding, ThrottlesAtClaim;
      var msg := ClaimNext(round.pick, round);
      if msg.None? {
        StopOrSleep(round.stopAtSleep, round);
        return Idled(true, round.stopAtSleep);
      }
      CountClaim(round.pick);
      var e, d := Handle(round.pick, msg.value, reg, round);
      var stopped := round.stopAtSleep && Waits(e);
      if Waits(e) { StopOrSleep(stopped, round); }
      o := Handled(round.pick, msg.value, e, d, stopped);
    }

    /** A turn past the paused and parked checks: sweep, promote, claim, see it through. */
    method Turn(reg: Registration, round: Round) returns (o: Outcome)
      requires AtHead() && CountersFit() && opts.agent !in bus.sys.parked
      modifies this, bus
      ensures old(bus.log) <= bus.log
      ensures Valid() && bus.sys.desks[opts.agent] == if Stops(o) then Down else Idle
      ensures Swept(o) && acts == old(acts) + Transactions(opts, old(freshnessAlerted), round, o)
      ensures opts.agent in bus.sys.parked <==> JustParked(o) && Unpark(opts.agent) !in round.peers(|acts|)
      ensures freshnessAlerted == LatchStep(opts, old(freshnessAlerted), round, o)
      ensures o.Idled? ==> (o.stopped <==> round.stopAtSleep)
      ensures Alarm(opts, old(freshnessAlerted), round.sweep) == [] && !round.selfCompacted ==>
        && (o.Handled? <==> Claimable(old(bus.sys).rows, round.pick, opts.agent))
        && (o.Handled? ==> o.id == round.pick && o.msg == old(bus.sys).rows[o.id].(state := Delivering))
      ensures Found() == FindingsAfter(old(Found()), o)
      ensures o.Handled? ==> Accounted(opts, reg, round, o, Found())
      ensures !o.Handled? ==> unchanged(`consecutivePaneFails, `paneFailMsg, `consecutiveSessionStale)
    {
      hide Next, Enabled, Coherent, Own, Backoff, TrailingRun, CountersFit, SharedBus.Traced;
      hide Alarm, Latch, Work, Released, Claimable, Accounted, FindingsAfter;
      SweepFreshness(round);
      PromoteOnSelfCompact(round);
      o := TakeRow(reg, round);
    }

    /** One turn. Whatever the others did since the last one happens first; then the agent row is read. A parked
        mailman works again in the very turn that finds it un-parked, with the streak that parked it at zero. */
    method Iterate(round: Round) returns (o: Outcome)
      requires Valid() && bus.sys.desks[opts.agent] == Idle
      modifies this, bus
      ensures old(bus.log) <= bus.log
      ensures Valid()
      ensures bus.sys.desks[opts.agent] == if Stops(o) then Down else Idle
      ensures acts == old(acts) + Transactions(opts, old(freshnessAlerted), round, o)
      ensures freshnessAlerted == LatchStep(opts, old(freshnessAlerted), round, o)
      ensures |bus.log| - |old(bus.log)| == |acts| - |old(acts)| ==>
        var posted := Transactions(opts, old(freshnessAlerted), round, o);
        Admissible(old(bus.sys), posted) && bus.sys == Run(old(bus.sys), posted)
      ensures o.Quit? <==> round.stopAtHead
      ensures Swept(o) <==>
        && !round.stopAtHead && round.registration.Some? && !round.registration.value.paused
        && (opts.agent !in old(bus.sys).parked || Unpark(opts.agent) in round.before)
      ensures Swept(o) && Alarm(opts, old(freshnessAlerted), round.sweep) == [] && !round.selfCompacted ==>
        var rows := Others(old(bus.sys), opts.agent, round.before).rows;
        && (o.Handled? <==>
            round.pick < |rows| && rows[round.pick].recipient == opts.agent && rows[round.pick].state == Queued)
        && (o.Handled? ==> o.id == round.pick && o.msg == rows[o.id].(state := Delivering))
      ensures Swept(o) ==>
        (opts.agent in bus.sys.parked <==> JustParked(o) && Unpark(opts.agent) !in round.peers(|acts|))
      ensures !Swept(o) && !Stops(o) ==> bus.sys == Others(old(bus.sys), opts.agent, round.before)
      ensures o.Idled? ==> (o.stopped <==> round.stopAtSleep)
      ensures Found() == FindingsAfter(old(Found()), o) && Recorded(opts, round, o, Found())
      ensures !o.Handled? ==> unchanged(`consecutivePaneFails, `paneFailMsg, `consecutiveSessionStale)
      ensures o.Handled? && o.ending.PaneParked? ==> consecutivePaneFails == 0 && paneFailMsg.None?
      ensures o.Handled? && o.ending.StaleParked? ==> consecutiveSessionStale == 0
    {
      hide Next, Enabled, Coherent, Own, Backoff, TrailingRun, CountersFit, SharedBus.Traced;
      hide Admissible, Run, Alarm, Latch, Accounted, Others, ProbeFinding, GateFinding, StaleFinding, ThrottlesAtClaim, Duties, Archived;
      ghost var start, log, done, latched := bus.sys, bus.log, acts, freshnessAlerted;
      TracedSoFar();
      bus.Interfere(opts.agent, round.before);
      OthersUnpark(start, opts.agent, round.before);
      if round.stopAtHead {
        StopOrSleep(true, round);
        o := Quit;
      } else if round.registration.None? || round.registration.value.paused || opts.agent in bus.sys.parked {
        StopOrSleep(round.stopAtSleep, round);
        o := Idled(false, round.stopAtSleep);
      } else {
        o := Turn(round.registration.value, round);
        if o.Handled? { StartsAfresh(round.registration.value, round, o); }
      }
      AloneRuns(start, log, done, Transactions(opts, latched, round, o));
    }

    /** A mailman that has just parked counts from zero. */
    lemma StartsAfresh(reg: Registration, round: Round, o: Outcome)
      requires CountersFit() && o.Handled? && Accounted(opts, reg, round, o, Found())
      ensures o.ending.PaneParked? ==> consecutivePaneFails == 0 && paneFailMsg.None?
      ensures o.ending.StaleParked? ==> consecutiveSessionStale == 0
    {
      hide TrailingRun, Truthful, InPlace, HealsFit, PassedUpToGate;
    }

    /** The for loop of the daemon. Nothing of this agent is in delivering at any loop head. */
    method Loop(rounds: seq<Round>) returns (outcomes: seq<Outcome>)
      requires Valid() && bus.sys.desks[opts.agent] == Idle
      modifies this, bus
      ensures old(bus.log) <= bus.log
      ensures Valid() && |outcomes| <= |rounds|
      ensures acts == old(acts) + Script(opts, old(freshnessAlerted), rounds, outcomes)
      ensures forall k | 0 <= k < |outcomes| - 1 :: !Stops(outcomes[k])
      ensures Found() == History(old(Found()), outcomes, |outcomes|)
      ensures AllRecorded(opts, old(Found()), rounds, outcomes)
      ensures opts.agent in old(bus.sys).parked && NobodyUnparks(opts.agent, rounds) ==> NothingSwept(outcomes)
      ensures SweepsRightly(opts, opts.agent in old(bus.sys).parked, |old(acts)|, old(freshnessAlerted), rounds, outcomes)
      ensures if outcomes != [] && Stops(outcomes[|outcomes| - 1])
              then bus.sys.desks[opts.agent] == Down
              else bus.sys.desks[opts.agent] == Idle && |outcomes| == |rounds| && NoneDelivering(bus.sys.rows, opts.agent)
    {
      hide Next, Enabled, Coherent, Own, Backoff, TrailingRun, CountersFit, Stops, LatchStep, Transactions, SharedBus.Traced;
      hide Recorded, FindingsAfter, Script, LatchAfter, History, AllRecorded, Alarm, Claimable, Others, Swept;
      hide SweepsRightly, LeftParked, JustParked;
      outcomes := [];
      NothingDone(opts, freshnessAlerted, Found(), rounds);
      NothingSweptYet(opts, opts.agent in bus.sys.parked, |acts|, freshnessAlerted, rounds);
      NothingInFlight();
      while |outcomes| < |rounds|
        invariant Valid() && |outcomes| <= |rounds| && old(bus.log) <= bus.log
        invariant bus.sys.desks[opts.agent] == Idle && NoneDelivering(bus.sys.rows, opts.agent)
        invariant acts == old(acts) + Script(opts, old(freshnessAlerted), rounds, outcomes)
        invariant freshnessAlerted == LatchAfter(opts, old(freshnessAlerted), rounds, outcomes)
        invariant forall k | 0 <= k < |outcomes| :: !Stops(outcomes[k])
        invariant Found() == History(old(Found()), outcomes, |outcomes|)
        invariant AllRecorded(opts, old(Found()), rounds, outcomes)
        invariant opts.agent in old(bus.sys).parked && NobodyUnparks(opts.agent, rounds) ==>
          opts.agent in bus.sys.parked && NothingSwept(outcomes)
        invariant SweepsRightly(opts, opts.agent in old(bus.sys).parked, |old(acts)|, old(freshnessAlerted), rounds, outcomes)
        invariant opts.agent in bus.sys.parked <==>
          LeftParked(opts, opts.agent in old(bus.sys).parked, |old(acts)|, old(freshnessAlerted), rounds, outcomes, |outcomes|)
      {
        OthersUnpark(bus.sys, opts.agent, rounds[|outcomes|].before);
        var o := Iterate(rounds[|outcomes|]);
        ScriptStep(opts, old(freshnessAlerted), rounds, outcomes, o);
        RecordedStep(opts, old(Found()), rounds, outcomes, o);
        SweepsStep(opts, opts.agent in old(bus.sys).parked, |old(acts)|, old(freshnessAlerted), rounds, outcomes, o);
        outcomes := outcomes + [o];
        if Stops(o) { return; }
        NothingInFlight();
      }
    }

    /** The process from startup on: recovery first, whatever the delivery mode, then the loop. What the protocol
        promises holds of everything all daemons have written. */
    method Serve(launch: Launch, rounds: seq<Round>) returns (outcomes: seq<Outcome>)
      requires Valid() && bus.sys.desks[opts.agent] == Down && rounds != []
      modifies this, bus
      ensures old(bus.log) <= bus.log
      ensures Valid() && |outcomes| <= |rounds|
      ensures acts == old(acts) + (
        match launch
        case NotRegistered => []
        case NoPasteMode => [Start(opts.agent), Stop(opts.agent)]
        case PasteMode => [Start(opts.agent)] + Script(opts, old(freshnessAlerted), rounds, outcomes))
      ensures bus.sys.desks[opts.agent] == Idle ==> |outcomes| == |rounds| && NoneDelivering(bus.sys.rows, opts.agent)
      ensures bus.sys.desks[opts.agent] == Idle || bus.sys.desks[opts.agent] == Down
      ensures AllRecorded(opts, old(Found()), rounds, outcomes)
      ensures opts.stuckThreshold > 0 ==> consecutivePaneFails < opts.stuckThreshold
      ensures opts.staleThreshold > 0 ==> consecutiveSessionStale < opts.staleThreshold
      ensures SingleFlight(bus.sys) && forall id: RowId :: bus.sys.landings[id] <= 1
      ensures Terminals(bus.log) + Outstanding(bus.sys) <= Outstanding(bus.first) + TotalInjected(bus.log)
    {
      hide Next, Enabled, Coherent, Own, Script, NoneDelivering, Stops, Recorded, SharedBus.Traced;
      hide SingleFlight, Terminals, Outstanding, TotalInjected;
      outcomes := [];
      if launch.PasteMode? {
        Recover(rounds[0]);
        outcomes := Loop(rounds);
      } else if launch.NoPasteMode? {
        Recover(rounds[0]);
        StopOrSleep(true, rounds[0]);
      }
      StreaksBelowThreshold();
      bus.SoFar();
    }

    method Recover(round: Round)
      requires Attached() && bus.sys.desks[opts.agent] == Down
      modifies bus, `acts
      ensures old(bus.log) <= bus.log
      ensures AtHead() && acts == old(acts) + [Start(opts.agent)]
    {
      hide Coherent, SharedBus.Traced;
      Act(Start(opts.agent), round);
    }

    lemma NothingInFlight()
      requires AtHead()
      ensures NoneDelivering(bus.sys.rows, opts.agent)
    {
      forall i | 0 <= i < |bus.sys.rows| && bus.sys.rows[i].recipient == opts.agent
        ensures bus.sys.rows[i].state != Delivering
      {
        assert Attended(bus.sys, i);
      }
    }

    lemma StreaksBelowThreshold()
      requires CountersFit()
      ensures opts.stuckThreshold > 0 ==> consecutivePaneFails < opts.stuckThreshold
      ensures opts.staleThreshold > 0 ==> consecutiveSessionStale < opts.staleThreshold
    {
    }
  }
}
