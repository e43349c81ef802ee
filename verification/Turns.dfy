/** What a turn of the mailman's loop may come to, what it writes, and what it leaves on record. */
module Turns {
  import opened Wrappers
  import opened Bus
  import opened Streaks
  import opened Answers
  import opened Verdicts

  // ---- What an ending writes ----------------------------------------------------------------------------------

  function NoticeOrRest(a: Agent, enabled: bool, msg: Row): seq<Event> {
    [if enabled && msg.kind != FailureNotice then Notify(a, FailureNotice) else Rest(a)]
  }

  function Fail(opts: Options, msg: Row): seq<Event> {
    [Finish(opts.agent, MarkedFailed(false))] + NoticeOrRest(opts.agent, opts.notifyOnFailed, msg)
  }

  /** The transactions an ending owes, after the claim and a possible archived draft. */
  function Duties(opts: Options, msg: Row, e: Ending): seq<Event> {
    var a := opts.agent;
    match e
    case Pinged(healthy) =>
      [Finish(a, if healthy then MarkedDelivered(true) else MarkedFailed(false)), Rest(a)]
    case Blocked(_) => Fail(opts, msg)
    case Absorbed(original) =>
      [Confirm(a, original), Finish(a, MarkedFailed(true)), if msg.kind == Message then Notify(a, DedupeNotice) else Rest(a)]
    case ResetInterrupted => [Land(a), Finish(a, MarkedDelivered(true)), Rest(a), Stop(a)]
    case GateStopped => [Stop(a)]
    case StaleParked => [Requeue(a), Park(a)]
    case PaneParked => [Requeue(a), Park(a)]
    case Attempted(r) => (
      match r
      case Pasted =>
        [Land(a), Finish(a, MarkedDelivered(true)), Rest(a)] + (if IsSessionReset(msg) then [Release(a)] else [])
      case SubmittedExternally => [Land(a), Finish(a, MarkedDelivered(true)), Rest(a)]
      case Unverified =>
        [Land(a), Finish(a, MarkedDelivered(false))] + NoticeOrRest(a, opts.notifyOnInputBox, msg)
      case Unsupported => [Finish(a, MarkedDelivered(true)), Rest(a)]
      case InputRaced => [Requeue(a)]
      case PriorPasteStuck => [Requeue(a)]
      case PaneMissing => Fail(opts, msg)
      case HardError => Fail(opts, msg))
    case _ => [Requeue(a)]
  }

  function Archived(a: Agent, d: Dossier): seq<Event> {
    if d.archived.Some? then [Archive(a, d.archived.value)] else []
  }

  predicate Parks(e: Ending) {
    e.StaleParked? || e.PaneParked?
  }

  /** The two stop edges inside an iteration: before any paste, or after the terminal mark. */
  predicate Exits(e: Ending) {
    e.GateStopped? || e.ResetInterrupted?
  }

  // ---- What a turn writes ---------------------------------------------------------------------------------------

  datatype Launch = NotRegistered | NoPasteMode | PasteMode

  /** What one turn of the loop came to. `swept` says the turn got past the paused and parked checks. */
  datatype Outcome =
    | Quit
    | Idled(swept: bool, stopped: bool)
    | Handled(id: RowId, msg: Row, ending: Ending, dossier: Dossier, stopped: bool)

  predicate Stops(o: Outcome) {
    match o
    case Quit => true
    case Idled(_, stopped) => stopped
    case Handled(_, _, e, _, stopped) => stopped || Exits(e)
  }

  /** Endings that close with a wait; the others go straight to the next turn, or have left already. */
  predicate Waits(e: Ending) {
    !Parks(e) && !e.ProbeDeferred? && !Exits(e)
  }

  predicate Swept(o: Outcome) {
    o.Handled? || (o.Idled? && o.swept)
  }

  predicate JustParked(o: Outcome)
    ensures JustParked(o) ==> Swept(o)
  {
    o.Handled? && Parks(o.ending)
  }

  predicate Claimable(rows: seq<Row>, id: RowId, a: Agent) {
    id < |rows| && rows[id].recipient == a && rows[id].state == Queued
  }

  function Alarm(opts: Options, latched: bool, sweep: Sweep): seq<Event> {
    if opts.conductor.Some? && opts.conductor.value != opts.agent && sweep.Stale? && !sweep.held && !latched
    then [Alert(opts.agent, opts.conductor.value)] else []
  }

  function Latch(opts: Options, latched: bool, sweep: Sweep): bool {
    if opts.conductor.None? || opts.conductor.value == opts.agent then latched
    else match sweep
         case Drained => false
         case Moving => false
         case Stale(held) => latched || !held
         case _ => latched
  }

  /** What a turn writes after the freshness sweep. */
  function Work(opts: Options, o: Outcome): seq<Event> {
    match o
    case Quit => [Stop(opts.agent)]
    case Idled(_, stopped) => if stopped then [Stop(opts.agent)] else []
    case Handled(id, msg, e, d, stopped) =>
      [Claim(opts.agent, id)] + Archived(opts.agent, d) + Duties(opts, msg, e)
      + (if stopped then [Stop(opts.agent)] else [])
  }

  function Released(opts: Options, round: Round): seq<Event> {
    if round.selfCompacted then [Release(opts.agent)] else []
  }

  function Transactions(opts: Options, latched: bool, round: Round, o: Outcome): seq<Event> {
    (if Swept(o) then Alarm(opts, latched, round.sweep) + Released(opts, round) else []) + Work(opts, o)
  }

  function LatchStep(opts: Options, latched: bool, round: Round, o: Outcome): bool {
    if Swept(o) then Latch(opts, latched, round.sweep) else latched
  }

  function LatchAfter(opts: Options, latched: bool, rounds: seq<Round>, outcomes: seq<Outcome>): bool
    requires |outcomes| <= |rounds|
  {
    if outcomes == [] then latched
    else
      var k := |outcomes| - 1;
      LatchStep(opts, LatchAfter(opts, latched, rounds, outcomes[..k]), rounds[k], outcomes[k])
  }

  function Script(opts: Options, latched: bool, rounds: seq<Round>, outcomes: seq<Outcome>): seq<Event>
    requires |outcomes| <= |rounds|
  {
    if outcomes == [] then []
    else
      var k := |outcomes| - 1;
      Script(opts, latched, rounds, outcomes[..k])
      + Transactions(opts, LatchAfter(opts, latched, rounds, outcomes[..k]), rounds[k], outcomes[k])
  }

  lemma ScriptStep(opts: Options, latched: bool, rounds: seq<Round>, outcomes: seq<Outcome>, o: Outcome)
    requires |outcomes| < |rounds|
    ensures Script(opts, latched, rounds, outcomes + [o]) ==
            Script(opts, latched, rounds, outcomes)
            + Transactions(opts, LatchAfter(opts, latched, rounds, outcomes), rounds[|outcomes|], o)
    ensures LatchAfter(opts, latched, rounds, outcomes + [o]) ==
            LatchStep(opts, LatchAfter(opts, latched, rounds, outcomes), rounds[|outcomes|], o)
  {
    assert (outcomes + [o])[..|outcomes|] == outcomes;
  }

  // ---- Asleep and awake -------------------------------------------------------------------------------------------

  /** Whether the agent is parked when `k` turns are done. A parking turn's last transaction is the park, and the
      `n`-th of the mailman's transactions is followed by `peers(n)`; `base` of them were before the loop. */
  predicate LeftParked(
    opts: Options, parked: bool, base: nat, latched: bool, rounds: seq<Round>, outcomes: seq<Outcome>, k: nat)
    requires k <= |outcomes| <= |rounds|
  {
    if k == 0 then parked
    else
      var o, round := outcomes[k - 1], rounds[k - 1];
      if JustParked(o) then Unpark(opts.agent) !in round.peers(base + |Script(opts, latched, rounds, outcomes[..k])|)
      else !Swept(o) && LeftParked(opts, parked, base, latched, rounds, outcomes, k - 1) && Unpark(opts.agent) !in round.before
  }

  /** Neither stopped, nor gone from the registry, nor paused. */
  predicate Ready(round: Round) {
    !round.stopAtHead && round.registration.Some? && !round.registration.value.paused
  }

  /** A turn sweeps and claims exactly when it is ready and the agent is not parked, or was just registered by force. */
  ghost predicate SweepsRightly(
    opts: Options, parked: bool, base: nat, latched: bool, rounds: seq<Round>, outcomes: seq<Outcome>)
  {
    && |outcomes| <= |rounds|
    && forall k | 0 <= k < |outcomes| ::
      Swept(outcomes[k]) <==>
        && Ready(rounds[k])
        && (!LeftParked(opts, parked, base, latched, rounds, outcomes, k) || Unpark(opts.agent) in rounds[k].before)
  }

  lemma {:induction false} LeftParkedKept(
    opts: Options, parked: bool, base: nat, latched: bool, rounds: seq<Round>, outcomes: seq<Outcome>, o: Outcome, k: nat)
    requires k <= |outcomes| < |rounds|
    ensures LeftParked(opts, parked, base, latched, rounds, outcomes + [o], k) ==
            LeftParked(opts, parked, base, latched, rounds, outcomes, k)
  {
    hide Script, Swept, JustParked;
    if k > 0 {
      LeftParkedKept(opts, parked, base, latched, rounds, outcomes, o, k - 1);
      assert (outcomes + [o])[..k] == outcomes[..k];
    }
  }

  lemma NothingSweptYet(opts: Options, parked: bool, base: nat, latched: bool, rounds: seq<Round>)
    ensures SweepsRightly(opts, parked, base, latched, rounds, [])
    ensures LeftParked(opts, parked, base, latched, rounds, [], 0) == parked
  {
  }

  lemma SweepsStep(
    opts: Options, parked: bool, base: nat, latched: bool, rounds: seq<Round>, outcomes: seq<Outcome>, o: Outcome)
    requires |outcomes| < |rounds| && SweepsRightly(opts, parked, base, latched, rounds, outcomes)
    ensures var n := |outcomes|; var round, was := rounds[n], LeftParked(opts, parked, base, latched, rounds, outcomes, n);
      && ((Swept(o) <==> Ready(round) && (!was || Unpark(opts.agent) in round.before)) ==>
           SweepsRightly(opts, parked, base, latched, rounds, outcomes + [o]))
      && LeftParked(opts, parked, base, latched, rounds, outcomes + [o], n + 1) == (
           if JustParked(o) then Unpark(opts.agent) !in round.peers(base + |Script(opts, latched, rounds, outcomes + [o])|)
           else !Swept(o) && was && Unpark(opts.agent) !in round.before)
  {
    hide Script, Swept, JustParked, LeftParked;
    forall k | 0 <= k <= |outcomes|
      ensures LeftParked(opts, parked, base, latched, rounds, outcomes + [o], k) ==
              LeftParked(opts, parked, base, latched, rounds, outcomes, k)
    {
      LeftParkedKept(opts, parked, base, latched, rounds, outcomes, o, k);
    }
    LeftParkedNext(opts, parked, base, latched, rounds, outcomes + [o]);
  }

  lemma LeftParkedNext(
    opts: Options, parked: bool, base: nat, latched: bool, rounds: seq<Round>, outcomes: seq<Outcome>)
    requires 0 < |outcomes| <= |rounds|
    ensures var n := |outcomes|; var o, round := outcomes[n - 1], rounds[n - 1];
      LeftParked(opts, parked, base, latched, rounds, outcomes, n) == (
        if JustParked(o) then Unpark(opts.agent) !in round.peers(base + |Script(opts, latched, rounds, outcomes)|)
        else !Swept(o) && LeftParked(opts, parked, base, latched, rounds, outcomes, n - 1) && Unpark(opts.agent) !in round.before)
  {
    assert outcomes[..|outcomes|] == outcomes;
  }

  predicate Alarms(opts: Options, latched: bool, rounds: seq<Round>, outcomes: seq<Outcome>, k: nat)
    requires k < |outcomes| <= |rounds|
  {
    Swept(outcomes[k]) && Alarm(opts, LatchAfter(opts, latched, rounds, outcomes[..k]), rounds[k].sweep) != []
  }

  /** Between two freshness alerts some sweep saw the queue drained or moving. */
  lemma {:induction false} OneAlertPerFreeze(
    opts: Options, latched: bool, rounds: seq<Round>, outcomes: seq<Outcome>, j: nat, k: nat)
    requires j < k < |outcomes| <= |rounds|
    requires Alarms(opts, latched, rounds, outcomes, j) && Alarms(opts, latched, rounds, outcomes, k)
    ensures exists i :: j < i < k && Swept(outcomes[i]) && (rounds[i].sweep.Drained? || rounds[i].sweep.Moving?)
  {
    var i := j + 1;
    assert outcomes[..i][..j] == outcomes[..j];
    while i < k && !(Swept(outcomes[i]) && (rounds[i].sweep.Drained? || rounds[i].sweep.Moving?))
      invariant j < i <= k && LatchAfter(opts, latched, rounds, outcomes[..i])
    {
      assert outcomes[..i + 1][..i] == outcomes[..i];
      i := i + 1;
    }
  }

  /** The queue was seen drained or moving. */
  predicate SeesProgress(rounds: seq<Round>, outcomes: seq<Outcome>, k: nat)
    requires k < |outcomes| <= |rounds|
  {
    Swept(outcomes[k]) && rounds[k].sweep in {Drained, Moving}
  }

  /** No alert is out: none since the queue was last seen drained or moving, or none at all. */
  ghost predicate NoAlertOut(opts: Options, latched: bool, rounds: seq<Round>, outcomes: seq<Outcome>, k: nat)
    requires k <= |outcomes| <= |rounds|
  {
    || (exists i :: 0 <= i < k && SeesProgress(rounds, outcomes, i)
          && forall m | i < m < k :: !Alarms(opts, latched, rounds, outcomes, m))
    || (!latched && forall m | 0 <= m < k :: !Alarms(opts, latched, rounds, outcomes, m))
  }

  lemma {:induction false} LatchMeansAlertOut(opts: Options, latched: bool, rounds: seq<Round>, outcomes: seq<Outcome>, k: nat)
    requires k <= |outcomes| <= |rounds|
    requires opts.conductor.Some? && opts.conductor.value != opts.agent
    ensures LatchAfter(opts, latched, rounds, outcomes[..k]) <==> !NoAlertOut(opts, latched, rounds, outcomes, k)
  {
    hide LatchAfter, Alarms, SeesProgress;
    if k > 0 {
      LatchMeansAlertOut(opts, latched, rounds, outcomes, k - 1);
      LatchMoves(opts, latched, rounds, outcomes, k - 1);
      if !SeesProgress(rounds, outcomes, k - 1) && !Alarms(opts, latched, rounds, outcomes, k - 1) {
        assert NoAlertOut(opts, latched, rounds, outcomes, k) <==> NoAlertOut(opts, latched, rounds, outcomes, k - 1);
      }
    } else {
      assert outcomes[..0] == [];
      NoLatchYet(opts, latched, rounds);
    }
  }

  lemma NoLatchYet(opts: Options, latched: bool, rounds: seq<Round>)
    ensures LatchAfter(opts, latched, rounds, []) == latched
  {
  }

  lemma LatchMoves(opts: Options, latched: bool, rounds: seq<Round>, outcomes: seq<Outcome>, n: nat)
    requires n < |outcomes| <= |rounds|
    requires opts.conductor.Some? && opts.conductor.value != opts.agent
    ensures LatchAfter(opts, latched, rounds, outcomes[..n + 1]) <==>
      !SeesProgress(rounds, outcomes, n)
      && (Alarms(opts, latched, rounds, outcomes, n) || LatchAfter(opts, latched, rounds, outcomes[..n]))
  {
    assert outcomes[..n + 1][..n] == outcomes[..n];
  }

  /** A turn alerts the conductor exactly when its sweep found the queue stale and not held, and no alert is out. */
  lemma AlertsExactly(opts: Options, latched: bool, rounds: seq<Round>, outcomes: seq<Outcome>, k: nat)
    requires k < |outcomes| <= |rounds|
    requires opts.conductor.Some? && opts.conductor.value != opts.agent
    ensures var posted := Transactions(opts, LatchAfter(opts, latched, rounds, outcomes[..k]), rounds[k], outcomes[k]);
      Alert(opts.agent, opts.conductor.value) in posted <==>
        Swept(outcomes[k]) && rounds[k].sweep == Stale(false) && NoAlertOut(opts, latched, rounds, outcomes, k)
  {
    hide NoAlertOut, LatchAfter, Work;
    LatchMeansAlertOut(opts, latched, rounds, outcomes, k);
    WorkAlertsNobody(opts, outcomes[k]);
  }

  lemma WorkAlertsNobody(opts: Options, o: Outcome)
    ensures forall e | e in Work(opts, o) :: !e.Alert?
  {
    hide Duties;
    if o.Handled? { DutiesAlertNobody(opts, o.msg, o.ending); }
  }

  lemma DutiesAlertNobody(opts: Options, msg: Row, e: Ending)
    ensures forall x | x in Duties(opts, msg, e) :: !x.Alert?
  {
    hide IsSessionReset;
  }

  /** A self-compaction seen by a sweep promotes the rows staged for resume before anything is claimed. */
  lemma SelfCompactionReleasesFirst(opts: Options, latched: bool, round: Round, o: Outcome)
    requires Swept(o)
    ensures var posted, work := Transactions(opts, latched, round, o), Work(opts, o);
      && |work| <= |posted| && posted[|posted| - |work|..] == work
      && (Release(opts.agent) in posted[..|posted| - |work|] <==> round.selfCompacted)
  {
    hide Work;
    var first := Alarm(opts, latched, round.sweep) + Released(opts, round);
    assert Transactions(opts, latched, round, o) == first + Work(opts, o);
    assert (first + Work(opts, o))[..|first|] == first;
  }

  predicate Landed(o: Outcome) {
    o.Handled? && (o.ending == Attempted(Pasted) || o.ending == ResetInterrupted)
  }

  /** A delivered session reset releases the rows staged for resume in its own turn, before anything else is claimed,
      exactly unless the stop signal came up during the settle wait; then the process exits with the rows still
      staged. */
  lemma ResetReleasesStagedRows(opts: Options, reg: Registration, o: Outcome)
    requires Landed(o) && Explains(opts, reg, o.msg, o.dossier, o.ending) && IsSessionReset(o.msg)
    ensures Release(opts.agent) in Work(opts, o) <==> !Yes(o.dossier.settleStop)
    ensures Yes(o.dossier.settleStop) ==> Stops(o) && Work(opts, o)[|Work(opts, o)| - 1] == Stop(opts.agent)
  {
    hide IsSessionReset, PassedUpToGate, PassedProbe, HealsFit, InPlace;
  }

  // ---- What a turn finds ----------------------------------------------------------------------------------------

  /** The three histories that the streaks are about: pre-paste probes, stale-session checks, throttled gates. */
  datatype Findings = Findings(misses: seq<Sample<RowId>>, stales: seq<Sample<()>>, throttles: seq<Sample<RowId>>)

  /** What the pre-paste probe adds to the pane history. */
  function ProbeFinding(id: RowId, d: Dossier): seq<Sample<RowId>> {
    if d.probe.None? then [] else [if d.probe.value.answer.PaneGone? then Miss(id) else Break]
  }

  /** What the session lookup and the stale probe add: nothing if the probe was switched off or not reached. */
  function StaleFinding(d: Routing): seq<Sample<()>> {
    if !(d.session.Some? && d.session.value.NotHosted?) then [Break]
    else if d.staleProbe.None? then []
    else [if d.staleProbe.value.answer == Seen(Unknown) then Miss(()) else Break]
  }

  predicate ReachesRouting(msg: Row, d: Routing) {
    msg.kind != Ping && !Yes(d.saturated)
  }

  /** Claiming any other row than the throttled one ends its run. */
  function ThrottlesAtClaim(h: seq<Sample<RowId>>, id: RowId): seq<Sample<RowId>> {
    if h != [] && h[|h| - 1] == Miss(id) then h else h + [Break]
  }

  /** A throttled pane extends the run, a gate that passes ends it, and any other deferral leaves it. */
  function GateFinding(id: RowId, forced: bool, d: Dossier): seq<Sample<RowId>> {
    if d.gate.None? then []
    else if GatePasses(forced, d.gate.value.answer) then [Break]
    else if d.gate.value.answer.SawRateLimit? then [Miss(id)]
    else []
  }

  function FindingsAfter(f: Findings, o: Outcome): Findings {
    if !o.Handled? then f
    else
      Findings(
        f.misses + ProbeFinding(o.id, o.dossier),
        f.stales + (if ReachesRouting(o.msg, o.dossier.routing) then StaleFinding(o.dossier.routing) else []),
        ThrottlesAtClaim(f.throttles, o.id) + GateFinding(o.id, o.msg.forced, o.dossier))
  }

  /** The findings after the first `n` turns. */
  function History(before: Findings, outcomes: seq<Outcome>, n: nat): Findings
    requires n <= |outcomes|
  {
    if n == 0 then before else FindingsAfter(History(before, outcomes, n - 1), outcomes[n - 1])
  }

  lemma {:induction false} HistoryKept(before: Findings, outcomes: seq<Outcome>, o: Outcome, n: nat)
    requires n <= |outcomes|
    ensures History(before, outcomes + [o], n) == History(before, outcomes, n)
  {
    if n > 0 { HistoryKept(before, outcomes, o, n - 1); }
  }

  // ---- What a turn leaves on record -------------------------------------------------------------------------------

  /** The dedupe query's WHERE clause, apart from the time window. */
  predicate IsUnverifiedCopy(rows: seq<Row>, id: RowId, msg: Row) {
    && id < |rows|
    && rows[id].sender == msg.sender && rows[id].recipient == msg.recipient && rows[id].body == msg.body
    && rows[id].state == Delivered(false)
  }

  predicate TruthfulRouting(round: Round, d: Routing) {
    && (d.saturated.Some? ==> d.saturated.value == round.providerSaturated)
    && (d.session.Some? ==> d.session.value == round.session)
    && (d.sessionHeal.Some? ==> d.sessionHeal.value == round.sessionHeal)
    && (d.staleProbe.Some? ==> d.staleProbe.value.answer == round.staleProbe(d.staleProbe.value.pane))
    && (d.name.Some? ==> d.name.value.answer == round.name(d.name.value.pane))
    && (d.lookup.Some? ==> d.lookup.value == round.lookup)
    && (d.nameHeal.Some? ==> d.nameHeal.value == round.nameHeal)
    && (d.accepts.Some? ==> d.accepts.value.answer == round.acceptsPaste(d.accepts.value.pane))
  }

  /** What the operator left in the input row, if it is worth keeping: the fresh reading, or the gate's snapshot
      when that reading failed. */
  function Draft(round: Round, msg: Row, pane: Pane): Option<string> {
    var content := if round.reread(pane).Some? then round.reread(pane).value else round.input(pane);
    if round.stale(pane) && round.input(pane) != "" && content != "" && msg.kind != StrandedDraft then Some(content) else None
  }

  predicate TruthfulPrior(round: Round, p: Asked<PriorAnswer>) {
    match p.answer
    case NoPrior => true
    case PriorUnreadable => round.prior.Some? && round.priorVisible(p.pane).None?
    case PriorGone => round.prior.Some? && No(round.priorVisible(p.pane))
    case PriorVisible(original) => round.prior == Some(original) && Yes(round.priorVisible(p.pane))
  }

  /** The dossier holds the answers the round gives about the panes it names, and no others. */
  predicate Truthful(round: Round, msg: Row, d: Dossier) {
    && TruthfulRouting(round, d.routing)
    && (d.prior.Some? ==> TruthfulPrior(round, d.prior.value))
    && (d.gate.Some? ==> d.gate.value.answer == round.gate(d.gate.value.pane) && d.spread == round.spread)
    && (d.archived ==
        if d.gate.Some? && GatePasses(msg.forced, d.gate.value.answer) then Draft(round, msg, d.gate.value.pane) else None)
    && (d.probe.Some? ==> d.probe.value.answer == round.probe(d.probe.value.pane))
    && (d.first.Some? ==> d.first.value.answer == round.first(d.first.value.pane))
    && (d.healLookup.Some? ==> d.healLookup.value == round.healLookup)
    && (d.healWrite.Some? ==> d.healWrite.value == round.healWrite)
    && (d.retry.Some? ==> d.retry.value.answer == round.second(d.retry.value.pane))
    && (d.settleStop.Some? ==> d.settleStop.value == round.stopAtSettle)
  }

  /** The run lengths in a dossier are those of the histories. */
  predicate RunsFit(opts: Options, forced: bool, d: Dossier, f: Findings) {
    && (StuckOnStaleSession(opts, d.routing) ==> d.routing.staleRun == TrailingRun(f.stales))
    && (d.gate.Some? && d.gate.value.answer.SawRateLimit? && !forced ==> d.throttleRun == TrailingRun(f.throttles))
    && (d.probe.Some? && d.probe.value.answer.PaneGone? ==> d.missRun == TrailingRun(f.misses))
  }

  /** A handled row is the one picked, its ending is the one the guards' answers force, and the dossier holds the
      answers the round gave and the run lengths of the findings so far. */
  ghost predicate Accounted(opts: Options, reg: Registration, round: Round, o: Outcome, f: Findings)
    requires o.Handled?
  {
    && o.id == round.pick && o.msg.recipient == opts.agent
    && Explains(opts, reg, o.msg, o.dossier, o.ending) && Truthful(round, o.msg, o.dossier)
    && RunsFit(opts, o.msg.forced, o.dossier, f)
    && (o.ending.Pinged? ==> o.ending.healthy == round.pingHealthy(reg.pane))
    && (o.stopped <==> round.stopAtSleep && Waits(o.ending))
  }

  ghost predicate Recorded(opts: Options, round: Round, o: Outcome, f: Findings) {
    o.Handled? ==> round.registration.Some? && Accounted(opts, round.registration.value, round, o, f)
  }

  ghost predicate AllRecorded(opts: Options, before: Findings, rounds: seq<Round>, outcomes: seq<Outcome>) {
    |outcomes| <= |rounds|
    && forall k | 0 <= k < |outcomes| :: Recorded(opts, rounds[k], outcomes[k], History(before, outcomes, k + 1))
  }

  lemma NothingDone(opts: Options, latched: bool, before: Findings, rounds: seq<Round>)
    ensures Script(opts, latched, rounds, []) == [] && LatchAfter(opts, latched, rounds, []) == latched
    ensures History(before, [], 0) == before && AllRecorded(opts, before, rounds, [])
  {
  }

  lemma RecordedStep(opts: Options, before: Findings, rounds: seq<Round>, outcomes: seq<Outcome>, o: Outcome)
    requires |outcomes| < |rounds| && AllRecorded(opts, before, rounds, outcomes)
    ensures var f := FindingsAfter(History(before, outcomes, |outcomes|), o);
      && History(before, outcomes + [o], |outcomes| + 1) == f
      && (Recorded(opts, rounds[|outcomes|], o, f) ==> AllRecorded(opts, before, rounds, outcomes + [o]))
  {
    hide Recorded, FindingsAfter;
    forall k | 0 <= k <= |outcomes| ensures History(before, outcomes + [o], k) == History(before, outcomes, k) {
      HistoryKept(before, outcomes, o, k);
    }
  }

  lemma Justify(opts: Options, reg: Registration, msg: Row, d: Dossier, r: PasteResult)
    requires PassedUpToGate(opts, reg, msg, d) && PassedProbe(opts, msg.forced, d) && AttemptFits(opts, reg, msg, d, r)
    requires HealsFit(reg, d.routing) && InPlace(reg, d) && msg.kind != Ping
    ensures Explains(opts, reg, msg, d, if Yes(d.settleStop) then ResetInterrupted else Attempted(r))
  {
  }
}
