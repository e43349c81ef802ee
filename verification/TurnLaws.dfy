/** What the records of a run of the loop imply: when it parks and how long it waited before, and how turns of the
    daemon keep the notice cycle going. */
module TurnLaws {
  import opened Wrappers
  import opened Bus
  import opened NoticeBudget
  import opened Streaks
  import opened Answers
  import opened Verdicts
  import opened Turns

  // ---- Parking --------------------------------------------------------------------------------------------------

  /** Over any run of the loop, a turn parks on a vanished pane exactly when the findings of all turns so far end in
      a run for one row whose length is a positive multiple of the threshold; short of that it waits the backoff of
      the streak. */
  lemma LoopParksAtThreshold(opts: Options, before: Findings, rounds: seq<Round>, outcomes: seq<Outcome>, k: nat)
    requires AllRecorded(opts, before, rounds, outcomes) && k < |outcomes| && outcomes[k].Handled?
    ensures var o, history := outcomes[k], History(before, outcomes, k + 1).misses;
      && (o.ending.PaneParked? <==> ProbeFinding(o.id, o.dossier) == [Miss(o.id)] && ParksOn(history, opts.stuckThreshold))
      && (o.ending.PaneDeferred? ==> o.ending.pause == PauseAfter(history, opts.stuckThreshold))
  {
    hide Explains, Truthful, ParksOn, PauseAfter, TrailingRun;
    var o, f := outcomes[k], History(before, outcomes, k + 1);
    assert Recorded(opts, rounds[k], o, f);
    ParksOnVanishedPane(opts, rounds[k].registration.value, o.msg, o.dossier, o.ending, f.misses);
  }

  /** Likewise for stale sessions; and a throttled row without a hint waits the backoff of its run plus the spread. */
  lemma LoopCountsStreaks(opts: Options, before: Findings, rounds: seq<Round>, outcomes: seq<Outcome>, k: nat)
    requires AllRecorded(opts, before, rounds, outcomes) && k < |outcomes| && outcomes[k].Handled?
    ensures var o, f := outcomes[k], History(before, outcomes, k + 1);
      && (o.ending.StaleParked? <==> StuckOnStaleSession(opts, o.dossier.routing) && ParksOn(f.stales, opts.staleThreshold))
      && (o.ending.GateDeferred? && o.ending.saw.SawRateLimit? && o.ending.saw.hint <= 0 ==>
          o.ending.pause == Backoff(TrailingRun(f.throttles)) + o.dossier.spread)
  {
    hide Backoff, Truthful, TrailingRun, InPlace, HealsFit;
    var o, f := outcomes[k], History(before, outcomes, k + 1);
    assert Recorded(opts, rounds[k], o, f);
    TrailingRunIsPositive(f.stales);
  }

  /** What the turns from `i` to `k` waited for a vanished pane. */
  function PaneWaits(outcomes: seq<Outcome>, i: nat, k: nat): int
    requires i <= k <= |outcomes|
  {
    if i == k then 0
    else
      var o := outcomes[k - 1];
      PaneWaits(outcomes, i, k - 1) + if o.Handled? && o.ending.PaneDeferred? then o.ending.pause else 0
  }

  lemma OneMorePause(h: seq<Sample<RowId>>, s: Sample<RowId>, from: nat, threshold: int)
    requires from <= |h|
    ensures TotalPause(h + [s], from, threshold) == TotalPause(h, from, threshold) + PauseAfter(h + [s], threshold)
    ensures s.Break? || ParksOn(h + [s], threshold) ==> PauseAfter(h + [s], threshold) == 0
  {
    hide Backoff;
    assert (h + [s])[..|h|] == h;
    if s.Break? { CountBreak(h, threshold); }
  }

  lemma {:induction false} PaneWaitsAddUp(
    opts: Options, before: Findings, rounds: seq<Round>, outcomes: seq<Outcome>, i: nat, k: nat)
    requires AllRecorded(opts, before, rounds, outcomes) && i <= k <= |outcomes|
    ensures var f, g := History(before, outcomes, i), History(before, outcomes, k);
      && |f.misses| <= |g.misses|
      && PaneWaits(outcomes, i, k) == TotalPause(g.misses, |f.misses|, opts.stuckThreshold)
  {
    hide Recorded, Accounted, ParksOn, PauseAfter;
    if i < k {
      PaneWaitsAddUp(opts, before, rounds, outcomes, i, k - 1);
      var o, h := outcomes[k - 1], History(before, outcomes, k - 1).misses;
      if o.Handled? {
        LoopParksAtThreshold(opts, before, rounds, outcomes, k - 1);
        LoopDefersOnlyMisses(opts, before, rounds, outcomes, k - 1);
        assert History(before, outcomes, k).misses == h + ProbeFinding(o.id, o.dossier);
        if ProbeFinding(o.id, o.dossier) == [] {
          assert h + [] == h;
        } else {
          assert ProbeFinding(o.id, o.dossier) == [ProbeFinding(o.id, o.dossier)[0]];
          OneMorePause(h, ProbeFinding(o.id, o.dossier)[0], |History(before, outcomes, i).misses|, opts.stuckThreshold);
        }
      }
    }
  }

  lemma LoopDefersOnlyMisses(opts: Options, before: Findings, rounds: seq<Round>, outcomes: seq<Outcome>, k: nat)
    requires AllRecorded(opts, before, rounds, outcomes) && k < |outcomes| && outcomes[k].Handled?
    ensures ProbeFinding(outcomes[k].id, outcomes[k].dossier) == [Miss(outcomes[k].id)] <==>
            outcomes[k].ending.PaneParked? || outcomes[k].ending.PaneDeferred?
  {
    hide Truthful, TrailingRun, InPlace, HealsFit, Backoff;
    assert Recorded(opts, rounds[k], outcomes[k], History(before, outcomes, k + 1));
  }

  /** A fresh run of vanished-pane findings of one row, however many turns it is spread over: the loop parks on the
      N-th of them and on no earlier one, having waited backoff(1) + … + backoff(N - 1). */
  lemma LoopParksAfterItsBackoffs(
    opts: Options, before: Findings, rounds: seq<Round>, outcomes: seq<Outcome>, i: nat, k: nat, n: nat)
    requires AllRecorded(opts, before, rounds, outcomes) && i < k <= |outcomes|
    requires outcomes[k - 1].Handled? && ProbeFinding(outcomes[k - 1].id, outcomes[k - 1].dossier) != []
    requires var h, id := History(before, outcomes, i).misses, outcomes[k - 1].id;
      && (h == [] || h[|h| - 1] != Miss(id))
      && History(before, outcomes, k).misses == h + Repeat(Miss(id), n)
    requires 0 < n <= opts.stuckThreshold
    ensures outcomes[k - 1].ending.PaneParked? <==> n == opts.stuckThreshold
    ensures PaneWaits(outcomes, i, k) == BackoffsUpTo(if n == opts.stuckThreshold then n - 1 else n)
  {
    hide Recorded, Accounted, ParksOn, PauseAfter, Repeat, TotalPause, BackoffsUpTo, AllRecorded;
    var h, o := History(before, outcomes, i).misses, outcomes[k - 1];
    PaneWaitsAddUp(opts, before, rounds, outcomes, i, k);
    LoopParksAtThreshold(opts, before, rounds, outcomes, k - 1);
    FreshRunParksAtThreshold(h, o.id, n, opts.stuckThreshold);
    LastOfRepeat(h, Miss(o.id), n);
    assert History(before, outcomes, k).misses ==
           History(before, outcomes, k - 1).misses + ProbeFinding(o.id, o.dossier);
  }

  lemma LastOfRepeat<T>(h: seq<T>, x: T, n: nat)
    requires n > 0
    ensures |Repeat(x, n)| == n && (h + Repeat(x, n))[|h + Repeat(x, n)| - 1] == x
  {
  }

  /** After a turn that parks, and unless somebody registers the agent by force in the very moment, the next turn that
      sweeps is the first ready one that follows a forced registration. */
  lemma {:induction false} ParkedUntilRegistered(
    opts: Options, parked: bool, base: nat, latched: bool, rounds: seq<Round>, outcomes: seq<Outcome>, j: nat, k: nat)
    requires SweepsRightly(opts, parked, base, latched, rounds, outcomes) && j < k < |outcomes|
    requires outcomes[j].Handled? && (outcomes[j].ending.PaneParked? || outcomes[j].ending.StaleParked?)
    requires Unpark(opts.agent) !in rounds[j].peers(base + |Script(opts, latched, rounds, outcomes[..j + 1])|)
    requires forall i | j < i < k :: Unpark(opts.agent) !in rounds[i].before
    ensures Swept(outcomes[k]) <==> Ready(rounds[k]) && Unpark(opts.agent) in rounds[k].before
    ensures LeftParked(opts, parked, base, latched, rounds, outcomes, k)
  {
    hide Script;
    if k > j + 1 {
      ParkedUntilRegistered(opts, parked, base, latched, rounds, outcomes, j, k - 1);
    }
  }

  /** A stop signal in the closing wait ends the loop with the turn; the turns that parked, put a row back on the last
      reading, or left already have no such wait. */
  lemma StopsInTheClosingWait(opts: Options, round: Round, o: Outcome, f: Findings)
    requires o.Handled? && Recorded(opts, round, o, f)
    ensures o.stopped <==>
      && round.stopAtSleep
      && !o.ending.StaleParked? && !o.ending.PaneParked? && !o.ending.ProbeDeferred?
      && !o.ending.GateStopped? && !o.ending.ResetInterrupted?
    ensures Stops(o) <==> o.stopped || o.ending.GateStopped? || o.ending.ResetInterrupted?
  {
    hide Explains, Truthful, RunsFit;
  }

  // ---- Run lengths, turn by turn ----------------------------------------------------------------------------------

  predicate Probed(o: Outcome) {
    o.Handled? && o.dossier.probe.Some?
  }

  predicate FoundGone(o: Outcome) {
    Probed(o) && o.dossier.probe.value.answer == PaneGone
  }

  predicate NotThrottled(o: Outcome) {
    o.Handled? && o.dossier.gate.Some? && o.dossier.gate.value.answer in {Clear, MaxWaitExceeded, GateFailed}
  }

  predicate Throttled(o: Outcome) {
    o.Handled? && o.dossier.gate.Some? && o.dossier.gate.value.answer.SawRateLimit? && !o.msg.forced
  }

  /** Past the ping and the provider cap, where the session lookup is due. */
  predicate Routed(o: Outcome) {
    o.Handled? && o.msg.kind != Ping && o.dossier.routing.saturated != Some(true)
  }

  predicate FoundNoSession(o: Outcome) {
    && Routed(o) && o.dossier.routing.session == Some(NotHosted)
    && o.dossier.routing.staleProbe.Some? && o.dossier.routing.staleProbe.value.answer == Seen(Unknown)
  }

  lemma {:induction false} NothingBetween(before: Findings, outcomes: seq<Outcome>, j: nat, k: nat)
    requires j <= k <= |outcomes|
    ensures (forall i | j <= i < k :: !Probed(outcomes[i])) ==>
            History(before, outcomes, k).misses == History(before, outcomes, j).misses
    ensures (forall i | j <= i < k :: !Routed(outcomes[i])) ==>
            History(before, outcomes, k).stales == History(before, outcomes, j).stales
    ensures (forall i | j <= i < k :: !outcomes[i].Handled?) ==>
            History(before, outcomes, k).throttles == History(before, outcomes, j).throttles
  {
    if j < k {
      NothingBetween(before, outcomes, j, k - 1);
      var h := History(before, outcomes, k - 1);
      assert h.misses + [] == h.misses && h.stales + [] == h.stales;
    }
  }

  lemma NextInRun<K>(h: seq<Sample<K>>, x: K)
    ensures TrailingRun(h + [Miss(x)]) == if h != [] && h[|h| - 1] == Miss(x) then TrailingRun(h) + 1 else 1
  {
    TrailingRunStep(h, Miss(x));
  }

  /** The run that parks a mailman on a vanished pane grows from probe to probe: by one if the last probe, however many
      turns ago, found the pane of the same row gone, and otherwise it begins anew. */
  lemma VanishedPanesInARow(opts: Options, before: Findings, rounds: seq<Round>, outcomes: seq<Outcome>, j: nat, k: nat)
    requires AllRecorded(opts, before, rounds, outcomes) && j < k < |outcomes|
    requires Probed(outcomes[j]) && FoundGone(outcomes[k]) && forall i | j < i < k :: !Probed(outcomes[i])
    ensures outcomes[k].dossier.missRun ==
      if FoundGone(outcomes[j]) && outcomes[j].id == outcomes[k].id then outcomes[j].dossier.missRun + 1 else 1
  {
    hide TrailingRun, Explains, Truthful, StaleFinding, GateFinding, ThrottlesAtClaim;
    NothingBetween(before, outcomes, j + 1, k);
    assert Recorded(opts, rounds[j], outcomes[j], History(before, outcomes, j + 1));
    assert Recorded(opts, rounds[k], outcomes[k], History(before, outcomes, k + 1));
    NextInRun(History(before, outcomes, k).misses, outcomes[k].id);
  }

  /** So does the run of stale sessions, over the turns that look a session up. */
  lemma StaleSessionsInARow(opts: Options, before: Findings, rounds: seq<Round>, outcomes: seq<Outcome>, j: nat, k: nat)
    requires AllRecorded(opts, before, rounds, outcomes) && j < k < |outcomes|
    requires Routed(outcomes[j]) && FoundNoSession(outcomes[k]) && forall i | j < i < k :: !Routed(outcomes[i])
    ensures outcomes[k].dossier.routing.staleRun ==
      if FoundNoSession(outcomes[j]) then outcomes[j].dossier.routing.staleRun + 1 else 1
  {
    hide TrailingRun, AllRecorded;
    NothingBetween(before, outcomes, j + 1, k);
    OneStaleFinding(opts, before, rounds, outcomes, j);
    OneStaleFinding(opts, before, rounds, outcomes, k);
    NextInRun(History(before, outcomes, k).stales, ());
  }

  lemma OneStaleFinding(opts: Options, before: Findings, rounds: seq<Round>, outcomes: seq<Outcome>, k: nat)
    requires AllRecorded(opts, before, rounds, outcomes) && k < |outcomes| && Routed(outcomes[k])
    ensures FoundNoSession(outcomes[k]) ==>
      && opts.staleThreshold > 0 && opts.prePasteSafety
      && outcomes[k].dossier.routing.staleRun == TrailingRun(History(before, outcomes, k + 1).stales)
    ensures opts.staleThreshold > 0 && opts.prePasteSafety ==>
      History(before, outcomes, k + 1).stales ==
      History(before, outcomes, k).stales + [if FoundNoSession(outcomes[k]) then Miss(()) else Break]
  {
    hide TrailingRun, Truthful, Explains, ProbeFinding, GateFinding, ThrottlesAtClaim;
    assert Recorded(opts, rounds[k], outcomes[k], History(before, outcomes, k + 1));
    StaleIsAsked(opts, rounds[k].registration.value, outcomes[k]);
  }

  /** Whenever the session is found nowhere, the fallback pane is probed or the check is off. */
  lemma StaleIsAsked(opts: Options, reg: Registration, o: Outcome)
    requires Routed(o) && Explains(opts, reg, o.msg, o.dossier, o.ending)
    ensures StaleAsked(opts, reg, o.dossier.routing)
  {
    hide HealsFit, InPlace, AttemptFits, PassedGate, PassedProbe, PassedDedupe;
  }

  /** And so does the run of throttled readings, over the turns that claim anything: another row, or a gate that let
      the row through, begins it anew. */
  lemma ThrottlesInARow(opts: Options, before: Findings, rounds: seq<Round>, outcomes: seq<Outcome>, j: nat, k: nat)
    requires AllRecorded(opts, before, rounds, outcomes) && j < k < |outcomes|
    requires outcomes[j].Handled? && Throttled(outcomes[k]) && forall i | j < i < k :: !outcomes[i].Handled?
    ensures Throttled(outcomes[j]) && outcomes[j].id == outcomes[k].id ==>
            outcomes[k].dossier.throttleRun == outcomes[j].dossier.throttleRun + 1
    ensures NotThrottled(outcomes[j]) || outcomes[j].id != outcomes[k].id ==> outcomes[k].dossier.throttleRun == 1
  {
    hide TrailingRun, Explains, Truthful, ProbeFinding, StaleFinding;
    var g := History(before, outcomes, k).throttles;
    NothingBetween(before, outcomes, j + 1, k);
    assert Recorded(opts, rounds[j], outcomes[j], History(before, outcomes, j + 1));
    assert Recorded(opts, rounds[k], outcomes[k], History(before, outcomes, k + 1));
    ClaimOfAnother(History(before, outcomes, j).throttles, outcomes[j], outcomes[k].id);
    NextInRun(ThrottlesAtClaim(g, outcomes[k].id), outcomes[k].id);
  }

  lemma ClaimOfAnother(h: seq<Sample<RowId>>, o: Outcome, id: RowId)
    requires o.Handled?
    ensures var g := ThrottlesAtClaim(h, o.id) + GateFinding(o.id, o.msg.forced, o.dossier);
      && (o.id != id ==> g != [] && g[|g| - 1] != Miss(id))
      && (NotThrottled(o) ==> g != [] && g[|g| - 1] == Break)
      && (Throttled(o) ==> g == ThrottlesAtClaim(h, o.id) + [Miss(o.id)])
  {
  }

  // ---- What is archived -------------------------------------------------------------------------------------------

  /** Past the gate, and only there, what the operator left in the input row is archived: the fresh reading, or the
      gate's snapshot if that failed; nothing if the row was empty at either reading, or if the message is itself such
      a draft. */
  lemma ArchivesWhatWasTyped(opts: Options, round: Round, o: Outcome, f: Findings)
    requires o.Handled? && Recorded(opts, round, o, f)
    ensures o.dossier.archived.Some? ==> o.dossier.gate.Some?
    ensures o.dossier.gate.Some? ==>
      var p := o.dossier.gate.value.pane;
      && (o.dossier.archived.Some? <==>
          && !o.ending.GateStopped? && !o.ending.GateDeferred?
          && o.msg.kind != StrandedDraft && round.stale(p) && round.input(p) != "" && round.reread(p) != Some(""))
      && (o.dossier.archived.Some? ==>
          o.dossier.archived.value == if round.reread(p).Some? then round.reread(p).value else round.input(p))
  {
    hide RunsFit, HealsFit, InPlace, AttemptFits, PassedRouting, PassedProbe;
  }

  // ---- The notice cycle, turn by turn -----------------------------------------------------------------------------

  /** Everything in order up to the paste. */
  function SmoothDossier(opts: Options, reg: Registration, draft: Option<string>, r: TmuxResult): Dossier {
    var p := reg.pane;
    var byName := opts.driftCheck && !reg.session;
    Dossier(
      Routing(
        if opts.providerCap then Some(false) else None,
        if opts.driftCheck && reg.session then Some(HostedIn(p)) else None,
        None, None, 0,
        if byName then Some(Asked(p, ThisAgent)) else None,
        None, None,
        if byName then Some(Asked(p, true)) else None),
      if opts.dedupe then Some(Asked(p, NoPrior)) else None,
      if opts.gate then Some(Asked(p, Clear)) else None, 0, 0, draft,
      if opts.prePasteSafety then Some(Asked(p, Seen(Resting))) else None, 0,
      Some(Asked(p, r)), None, None, None, None)
  }

  lemma SmoothRouting(opts: Options, reg: Registration, draft: Option<string>, r: TmuxResult)
    ensures var d := SmoothDossier(opts, reg, draft, r).routing;
      PassedRouting(opts, reg, d) && HealsFit(reg, d) && RoutingInPlace(reg, d) && Aim(reg, d) == reg.pane
  {
  }

  /** A turn that delivers or fails to deliver `msg`, with nothing in its way. */
  function SmoothTurn(opts: Options, reg: Registration, id: RowId, msg: Row, draft: Option<string>, r: TmuxResult): Outcome {
    Handled(id, msg, Attempted(r), SmoothDossier(opts, reg, draft, r), false)
  }

  lemma SmoothTurnIsExplained(opts: Options, reg: Registration, msg: Row, draft: Option<string>, r: TmuxResult)
    requires (r == Pasted || r == HardError) && msg.kind != Ping && msg.kind != Control
    ensures Explains(opts, reg, msg, SmoothDossier(opts, reg, draft, r), Attempted(r))
  {
    hide PassedRouting, HealsFit, RoutingInPlace, Aim;
    SmoothRouting(opts, reg, draft, r);
    Justify(opts, reg, msg, SmoothDossier(opts, reg, draft, r), r);
  }

  function AllWork(opts: Options, outcomes: seq<Outcome>): seq<Event> {
    if outcomes == [] then [] else Work(opts, outcomes[0]) + AllWork(opts, outcomes[1..])
  }

  lemma {:induction false} AllWorkAppends(opts: Options, first: seq<Outcome>, rest: seq<Outcome>)
    ensures AllWork(opts, first + rest) == AllWork(opts, first) + AllWork(opts, rest)
  {
    hide Work;
    if first == [] {
      assert first + rest == rest;
    } else {
      assert (first + rest)[1..] == first[1..] + rest;
      AllWorkAppends(opts, first[1..], rest);
    }
  }

  /** Two turns of a daemon that archives drafts and reports failures: the stranded draft fails, and its failure
      notice is delivered over the next draft. */
  lemma CycleOnce(opts: Options, reg: Registration, s: System, id: RowId, draft: string)
    returns (turns: seq<Outcome>, events: seq<Event>)
    requires opts.gate && opts.notifyOnFailed && SelfAddressed(s, opts.agent, id, StrandedDraft)
    ensures |turns| == 2 && AllWork(opts, turns) == events && Admissible(s, events) && Terminals(events) == 2
    ensures forall o | o in turns :: o.Handled? && Explains(opts, reg, o.msg, o.dossier, o.ending)
    ensures SelfAddressed(Run(s, events), opts.agent, |s.rows| + 1, StrandedDraft)
  {
    hide Explains, Admissible, Run, Enabled, Next, SmoothDossier, Work, AllWork, Terminals;
    var a := opts.agent;
    var fail := DraftBecomesNotice(s, a, id);
    var t := Run(s, fail);
    RowsAfterFailure(s, a, id, fail);
    var strand := NoticeBecomesDraft(t, a, |s.rows|, draft);
    Compose(s, fail, strand);
    var first := SmoothTurn(opts, reg, id, s.rows[id].(state := Delivering), None, HardError);
    var second := SmoothTurn(opts, reg, |s.rows|, t.rows[|s.rows|].(state := Delivering), Some(draft), Pasted);
    SmoothTurnIsExplained(opts, reg, first.msg, None, HardError);
    SmoothTurnIsExplained(opts, reg, second.msg, Some(draft), Pasted);
    SmoothWork(opts, reg, first.id, first.msg, None, HardError);
    SmoothWork(opts, reg, second.id, second.msg, Some(draft), Pasted);
    turns, events := [first, second], fail + strand;
    TwoTurns(opts, first, second);
  }

  lemma TwoTurns(opts: Options, first: Outcome, second: Outcome)
    ensures AllWork(opts, [first, second]) == Work(opts, first) + Work(opts, second)
  {
    hide Work;
    assert [first, second][1..] == [second] && [second][1..] == [];
    assert AllWork(opts, [second]) == Work(opts, second) + AllWork(opts, []);
  }

  lemma RowsAfterFailure(s: System, a: Agent, id: RowId, events: seq<Event>)
    requires SelfAddressed(s, a, id, StrandedDraft) && Admissible(s, events)
    requires events == [Claim(a, id), Finish(a, MarkedFailed(false)), Notify(a, FailureNotice)]
    ensures |Run(s, events).rows| == |s.rows| + 1
  {
    var rest := events[1..];
    assert rest == [Finish(a, MarkedFailed(false)), Notify(a, FailureNotice)];
    assert rest[1..] == [Notify(a, FailureNotice)] && rest[1..][1..] == [];
    var t := Next(s, events[0]);
    var u := Next(t, rest[0]);
    assert Admissible(t, rest) && Admissible(u, rest[1..]) && Enabled(u, rest[1]);
    assert Run(s, events) == Run(t, rest) == Run(u, rest[1..]) == Next(u, rest[1]);
  }

  lemma SmoothWork(opts: Options, reg: Registration, id: RowId, msg: Row, draft: Option<string>, r: TmuxResult)
    requires opts.notifyOnFailed
    ensures r == HardError && draft == None && msg.kind == StrandedDraft ==>
      Work(opts, SmoothTurn(opts, reg, id, msg, draft, r)) ==
      [Claim(opts.agent, id), Finish(opts.agent, MarkedFailed(false)), Notify(opts.agent, FailureNotice)]
    ensures r == Pasted && draft.Some? && msg.kind == FailureNotice ==>
      Work(opts, SmoothTurn(opts, reg, id, msg, draft, r)) ==
      [Claim(opts.agent, id), Archive(opts.agent, draft.value), Land(opts.agent),
       Finish(opts.agent, MarkedDelivered(true)), Rest(opts.agent)]
  {
  }

  /** With any options that archive drafts and report failures, turns of the daemon alone go round the cycle as often
      as the operator leaves a draft. */
  lemma {:induction false} TurnsCycle(opts: Options, reg: Registration, s: System, id: RowId, draft: string, n: nat)
    returns (turns: seq<Outcome>)
    requires opts.gate && opts.notifyOnFailed && SelfAddressed(s, opts.agent, id, StrandedDraft)
    ensures |turns| == 2 * n
    ensures forall o | o in turns :: o.Handled? && Explains(opts, reg, o.msg, o.dossier, o.ending)
    ensures Admissible(s, AllWork(opts, turns)) && Terminals(AllWork(opts, turns)) == 2 * n
    decreases n
  {
    hide Explains, Enabled, Next, SelfAddressed, Work;
    if n == 0 { return []; }
    var once, events := CycleOnce(opts, reg, s, id, draft);
    var rest := TurnsCycle(opts, reg, Run(s, events), |s.rows| + 1, draft, n - 1);
    Compose(s, events, AllWork(opts, rest));
    AllWorkAppends(opts, once, rest);
    turns := once + rest;
  }
}
