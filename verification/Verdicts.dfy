/** Which answers justify which ending of a delivery attempt, and what follows about where text is pasted. */
module Verdicts {
  import opened Wrappers
  import opened Bus
  import opened Answers
  import opened Streaks

  // ---- Routing ------------------------------------------------------------------------------------------------

  predicate SessionAsked(opts: Options, reg: Registration, d: Routing) {
    d.session.Some? <==> opts.driftCheck && reg.session
  }

  predicate ResolvedBySession(d: Routing) {
    d.session.Some? && d.session.value.HostedIn?
  }

  function PaneAfterSession(reg: Registration, d: Routing): Pane {
    if ResolvedBySession(d) && Yes(d.sessionHeal) then d.session.value.pane else reg.pane
  }

  /** The registered session is hosted nowhere and the fallback pane cannot be classified. */
  predicate StuckOnStaleSession(opts: Options, d: Routing) {
    && d.session.Some? && d.session.value.NotHosted? && opts.staleThreshold > 0 && opts.prePasteSafety
    && d.staleProbe.Some? && d.staleProbe.value.answer == Seen(Unknown)
  }

  predicate StaleAsked(opts: Options, reg: Registration, d: Routing) {
    && SessionAsked(opts, reg, d)
    && (d.staleProbe.Some? <==>
        d.session.Some? && d.session.value.NotHosted? && opts.staleThreshold > 0 && opts.prePasteSafety)
  }

  predicate NameAsked(opts: Options, d: Routing) {
    opts.driftCheck && !ResolvedBySession(d)
  }

  predicate Named(d: Routing, answer: NameAnswer) {
    d.name.Some? && d.name.value.answer == answer
  }

  function NameBlock(opts: Options, pane: Pane, d: Routing): Option<Block> {
    if Named(d, Nobody) then
      if d.lookup.Some? && d.lookup.value.FoundIn? then None else Some(NoLiveSession)
    else if opts.driftSoftFail then None
    else if Named(d, NameAmbiguous) then Some(Drift)
    else if Named(d, AnotherAgent) then
      if d.lookup.Some? && (d.lookup.value.LookupFailed? || (d.lookup.value.FoundIn? && d.lookup.value.pane != pane))
      then None else Some(Drift)
    else None
  }

  function PaneAfterName(pane: Pane, d: Routing): Pane {
    if d.lookup.Some? && d.lookup.value.FoundIn? && Yes(d.nameHeal) then d.lookup.value.pane else pane
  }

  /** The pane the first paste goes to. */
  function Aim(reg: Registration, d: Routing): Pane {
    PaneAfterName(PaneAfterSession(reg, d), d)
  }

  /** Healing is tried exactly when discovery names a pane other than the current one. */
  predicate HealsFit(reg: Registration, d: Routing) {
    && (d.sessionHeal.Some? <==> ResolvedBySession(d) && d.session.value.pane != reg.pane)
    && (d.lookup.Some? <==> Named(d, Nobody) || Named(d, AnotherAgent))
    && (d.nameHeal.Some? <==>
        d.lookup.Some? && d.lookup.value.FoundIn? && d.lookup.value.pane != PaneAfterSession(reg, d))
  }

  predicate AskedOf<A>(asked: Option<Asked<A>>, p: Pane) {
    asked.Some? ==> asked.value.pane == p
  }

  /** Before the name path the questions are about the pane the session path left; the bare-shell gate asks about
      the pane everything settled on. */
  predicate RoutingInPlace(reg: Registration, d: Routing) {
    && AskedOf(d.staleProbe, PaneAfterSession(reg, d)) && AskedOf(d.name, PaneAfterSession(reg, d))
    && AskedOf(d.accepts, Aim(reg, d))
  }

  predicate PassedCap(opts: Options, d: Routing) {
    (d.saturated.Some? <==> opts.providerCap) && !Yes(d.saturated)
  }

  predicate PassedStale(opts: Options, reg: Registration, d: Routing) {
    PassedCap(opts, d) && StaleAsked(opts, reg, d) && !StuckOnStaleSession(opts, d)
  }

  predicate PassedName(opts: Options, reg: Registration, d: Routing) {
    && PassedStale(opts, reg, d)
    && (d.name.Some? <==> NameAsked(opts, d))
    && NameBlock(opts, PaneAfterSession(reg, d), d) == None
  }

  /** The name path has not been entered. */
  predicate NobodyNamed(d: Routing) {
    d.name.None? && d.lookup.None? && d.accepts.None?
  }

  predicate TurnedAway(d: Routing) {
    d.accepts.Some? && !d.accepts.value.answer
  }

  predicate PassedRouting(opts: Options, reg: Registration, d: Routing) {
    PassedName(opts, reg, d) && (d.accepts.Some? <==> NameAsked(opts, d)) && !TurnedAway(d)
  }

  // ---- Waiting and probing ------------------------------------------------------------------------------------

  predicate PassedDedupe(opts: Options, d: Dossier) {
    (d.prior.Some? <==> opts.dedupe) && !(d.prior.Some? && d.prior.value.answer.PriorVisible?)
  }

  predicate GatePasses(forced: bool, g: GateAnswer) {
    match g
    case Clear => true
    case MaxWaitExceeded => true
    case GateFailed => true
    case SawUsageLimit => forced
    case SawRateLimit(_) => forced
    case _ => false
  }

  /** A throttled pane is left alone for the banner's hint, or else for the backoff of its run, plus the spread;
      the other deferrals wait a fixed interval. */
  function GatePause(saw: GateAnswer, d: Dossier): int {
    if saw.SawRateLimit? then (if saw.hint > 0 then saw.hint else Backoff(d.throttleRun)) + d.spread else 0
  }

  predicate PassedGate(opts: Options, forced: bool, d: Dossier) {
    (d.gate.Some? <==> opts.gate) && (d.gate.Some? ==> GatePasses(forced, d.gate.value.answer))
  }

  predicate SafeToPaste(forced: bool, r: Reading) {
    r.Seen? && (if forced then !PasteUnsafeForced(r.state) else !PasteUnsafe(r.state))
  }

  predicate PassedProbe(opts: Options, forced: bool, d: Dossier) {
    (d.probe.Some? <==> opts.prePasteSafety) && (d.probe.Some? ==> SafeToPaste(forced, d.probe.value.answer))
  }

  predicate PassedUpToGate(opts: Options, reg: Registration, msg: Row, d: Dossier) {
    PassedRouting(opts, reg, d.routing) && PassedDedupe(opts, d) && PassedGate(opts, msg.forced, d)
  }

  // ---- Pasting ------------------------------------------------------------------------------------------------

  predicate HealsInto(reg: Registration, d: Dossier) {
    d.healLookup.Some? && d.healLookup.value.FoundIn? && d.healLookup.value.pane != Aim(reg, d.routing)
  }

  /** One paste; after a vanished pane a lookup, a registry write, and a second paste in the pane found. */
  predicate AttemptFits(opts: Options, reg: Registration, msg: Row, d: Dossier, r: PasteResult) {
    && (d.first.None? ==> msg.kind == Control && r == Unsupported)
    && (d.healLookup.Some? <==> d.first.Some? && d.first.value.answer == PaneMissing)
    && (d.healWrite.Some? <==> HealsInto(reg, d))
    && (d.retry.Some? <==> Yes(d.healWrite))
    && (d.first.Some? ==> r == (if d.retry.Some? then d.retry.value.answer else d.first.value.answer))
    && (d.settleStop.Some? <==> r == Pasted && opts.postCompactPause && IsSessionReset(msg))
  }

  /** After routing, every question and the first paste are about the settled pane; the second paste goes to the
      pane the lookup named. */
  predicate InPlace(reg: Registration, d: Dossier) {
    var p := Aim(reg, d.routing);
    && RoutingInPlace(reg, d.routing)
    && AskedOf(d.prior, p) && AskedOf(d.gate, p) && AskedOf(d.probe, p) && AskedOf(d.first, p)
    && (d.retry.Some? ==> d.healLookup == Some(FoundIn(d.retry.value.pane)))
  }

  // ---- The verdict --------------------------------------------------------------------------------------------

  ghost predicate Explains(opts: Options, reg: Registration, msg: Row, d: Dossier, e: Ending) {
    && HealsFit(reg, d.routing) && InPlace(reg, d)
    && (msg.kind == Ping <==> e.Pinged?)
    && (!e.Attempted? && !e.ResetInterrupted? ==> d.first.None? && d.retry.None?)
    && match e
       case Pinged(_) => d == Unopened(NOWHERE_YET)
       case CapDeferred => d == Unopened(NOWHERE_YET.(saturated := Some(true))) && opts.providerCap
       case StaleDeferred =>
         PassedCap(opts, d.routing) && StaleAsked(opts, reg, d.routing) && StuckOnStaleSession(opts, d.routing)
         && d.routing.staleRun % opts.staleThreshold != 0 && d == Unopened(d.routing) && NobodyNamed(d.routing)
       case StaleParked =>
         PassedCap(opts, d.routing) && StaleAsked(opts, reg, d.routing) && StuckOnStaleSession(opts, d.routing)
         && d.routing.staleRun % opts.staleThreshold == 0 && d == Unopened(d.routing) && NobodyNamed(d.routing)
       case Blocked(NotLive) =>
         PassedName(opts, reg, d.routing) && NameAsked(opts, d.routing) && TurnedAway(d.routing) && d == Unopened(d.routing)
       case Blocked(why) =>
         PassedStale(opts, reg, d.routing) && NameAsked(opts, d.routing) && d == Unopened(d.routing) && d.routing.accepts.None?
         && NameBlock(opts, PaneAfterSession(reg, d.routing), d.routing) == Some(why)
       case Absorbed(original) =>
         PassedRouting(opts, reg, d.routing) && opts.dedupe && d.gate.None? && d.probe.None?
         && d.prior.Some? && d.prior.value.answer == PriorVisible(original)
       case GateStopped =>
         PassedRouting(opts, reg, d.routing) && PassedDedupe(opts, d) && opts.gate && d.probe.None?
         && d.gate.Some? && d.gate.value.answer.Cancelled?
       case GateDeferred(saw, pause) =>
         PassedRouting(opts, reg, d.routing) && PassedDedupe(opts, d) && opts.gate && d.probe.None?
         && d.gate.Some? && d.gate.value.answer == saw
         && !GatePasses(msg.forced, saw) && saw != Cancelled && pause == GatePause(saw, d)
       case ProbeDeferred =>
         PassedUpToGate(opts, reg, msg, d) && opts.prePasteSafety && d.probe.Some? && !d.probe.value.answer.PaneGone?
         && !SafeToPaste(msg.forced, d.probe.value.answer)
       case PaneDeferred(pause) =>
         PassedUpToGate(opts, reg, msg, d) && opts.prePasteSafety && d.probe.Some? && d.probe.value.answer.PaneGone?
         && !(opts.stuckThreshold > 0 && d.missRun % opts.stuckThreshold == 0)
         && pause == Backoff(if opts.stuckThreshold > 0 then d.missRun % opts.stuckThreshold else d.missRun)
       case PaneParked =>
         PassedUpToGate(opts, reg, msg, d) && opts.prePasteSafety && d.probe.Some? && d.probe.value.answer.PaneGone?
         && opts.stuckThreshold > 0 && d.missRun % opts.stuckThreshold == 0
       case Attempted(r) =>
         PassedUpToGate(opts, reg, msg, d) && PassedProbe(opts, msg.forced, d) && AttemptFits(opts, reg, msg, d, r)
         && !Yes(d.settleStop)
       case ResetInterrupted =>
         PassedUpToGate(opts, reg, msg, d) && PassedProbe(opts, msg.forced, d) && AttemptFits(opts, reg, msg, d, Pasted)
         && Yes(d.settleStop)
  }

  /** The answers leave no choice: one dossier justifies one ending. */
  lemma EndingIsDetermined(opts: Options, reg: Registration, msg: Row, d: Dossier, e1: Ending, e2: Ending)
    requires Explains(opts, reg, msg, d, e1) && Explains(opts, reg, msg, d, e2)
    requires !e1.Pinged?
    ensures e1 == e2
  {
  }

  // ---- Where text goes ----------------------------------------------------------------------------------------

  predicate HostsSession(d: Routing, p: Pane) {
    ResolvedBySession(d) && d.session.value.pane == p
  }

  /** Discovery found the session in another pane, but the registry write that should follow it failed. */
  predicate SessionHealLost(d: Routing) {
    ResolvedBySession(d) && No(d.sessionHeal)
  }

  /** With the drift check and the pre-paste safety on, the pane that text goes to first had a paste-safe last
      reading, and hosts the session or was asked and is no shell. The one way past the second half is a lost heal. */
  lemma FirstPasteIsGated(opts: Options, reg: Registration, msg: Row, d: Dossier, e: Ending)
    requires Explains(opts, reg, msg, d, e) && d.first.Some?
    requires opts.driftCheck && opts.prePasteSafety
    ensures var p := d.first.value.pane;
      && d.probe.Some? && d.probe.value.pane == p
      && d.probe.value.answer in {Seen(Working), Seen(Resting)} + (if msg.forced then {Seen(RateLimited), Seen(UsageLimited)} else {})
      && (HostsSession(d.routing, p) || d.routing.accepts == Some(Asked(p, true)) <==> !SessionHealLost(d.routing))
  {
  }

  /** Discovery vouches for p: it hosts the session, it runs this agent, or the lookup named it. */
  predicate VouchedFor(d: Routing, p: Pane) {
    || HostsSession(d, p)
    || d.name == Some(Asked(p, ThisAgent))
    || d.lookup == Some(FoundIn(p))
  }

  predicate DiscoveryFailed(d: Routing) {
    Named(d, NameProbeFailed) || (Named(d, AnotherAgent) && d.lookup == Some(LookupFailed))
  }

  predicate HealLost(d: Routing) {
    SessionHealLost(d) || No(d.nameHeal)
  }

  /** Under the fail-loud default the first paste goes to a pane discovery vouches for, exactly unless a discovery
      call errored or a registry write failed. */
  lemma FailLoudRouting(opts: Options, reg: Registration, msg: Row, d: Dossier, e: Ending)
    requires Explains(opts, reg, msg, d, e) && d.first.Some? && opts.driftCheck && !opts.driftSoftFail
    ensures VouchedFor(d.routing, d.first.value.pane) <==> !DiscoveryFailed(d.routing) && !HealLost(d.routing)
  {
  }

  /** A second paste only follows a vanished pane, and goes to a different one that the lookup named. */
  lemma RetryFollowsVanishedPane(opts: Options, reg: Registration, msg: Row, d: Dossier, e: Ending)
    requires Explains(opts, reg, msg, d, e) && d.retry.Some?
    ensures d.first.Some? && d.first.value.answer == PaneMissing
    ensures d.healLookup == Some(FoundIn(d.retry.value.pane)) && d.retry.value.pane != d.first.value.pane
  {
  }

  /** The lost heal happens: with every guard on, a session found in `host` and a failed registry write, text goes
      to the registered pane, which nobody was asked about and discovery does not vouch for. */
  lemma LostHealPastesUngated(opts: Options, msg: Row, stalePane: Pane, host: Pane) returns (d: Dossier)
    requires opts.driftCheck && opts.prePasteSafety && !opts.driftSoftFail && msg.kind == Message && stalePane != host
    ensures Explains(opts, Registration(stalePane, true, false), msg, d, Attempted(Pasted))
    ensures d.first == Some(Asked(stalePane, Pasted)) && d.routing.accepts.None? && d.routing.name.None?
    ensures !HostsSession(d.routing, stalePane) && !VouchedFor(d.routing, stalePane)
  {
    var routing := NOWHERE_YET.(
      saturated := if opts.providerCap then Some(false) else None,
      session := Some(HostedIn(host)),
      sessionHeal := Some(false));
    d := Unopened(routing).(
      prior := if opts.dedupe then Some(Asked(stalePane, NoPrior)) else None,
      gate := if opts.gate then Some(Asked(stalePane, Clear)) else None,
      probe := Some(Asked(stalePane, Seen(Resting))),
      first := Some(Asked(stalePane, Pasted)));
  }

  /** The mailman parks on a vanished pane exactly when the pre-paste probe found it gone and the run of such
      findings is a positive multiple of the threshold; it waits the streak's backoff otherwise. */
  lemma ParksOnVanishedPane(opts: Options, reg: Registration, msg: Row, d: Dossier, e: Ending, history: seq<Sample<RowId>>)
    requires Explains(opts, reg, msg, d, e)
    requires d.probe.Some? && d.probe.value.answer.PaneGone? ==>
      d.missRun == TrailingRun(history) && history != [] && history[|history| - 1].Miss?
    ensures e.PaneParked? <==> d.probe.Some? && d.probe.value.answer.PaneGone? && ParksOn(history, opts.stuckThreshold)
    ensures e.PaneDeferred? ==> e.pause == PauseAfter(history, opts.stuckThreshold)
    ensures d.probe.Some? && d.probe.value.answer.PaneGone? ==> e.PaneParked? || e.PaneDeferred?
  {
    TrailingRunIsPositive(history);
  }
}
