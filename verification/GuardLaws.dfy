/** What an explained dossier says in plain answers: which of them force each ending, and what a paste has behind it.
    The laws name the answers themselves, not the tests the guards are written with. */
module GuardLaws {
  import opened Wrappers
  import opened Bus
  import opened Streaks
  import opened Answers
  import opened Verdicts

  /** Text pasted now would be lost or would do harm. */
  predicate Corrupting(r: Reading) {
    r in {Seen(AwaitingOperator), Seen(Unknown), Seen(AtRestInCompaction), Seen(InCopyMode), Seen(Errored)}
  }

  predicate Limited(r: Reading) {
    r in {Seen(RateLimited), Seen(UsageLimited)}
  }

  /** The last probe decides alone: a vanished pane counts towards parking; an unreadable pane, a corrupting state, and
      a provider limit unless the row is forced, put the row back; anything else lets it through. */
  lemma LastReadingDecides(opts: Options, reg: Registration, msg: Row, d: Dossier, e: Ending)
    requires Explains(opts, reg, msg, d, e) && d.probe.Some?
    ensures var r := d.probe.value.answer;
      && (e.PaneDeferred? || e.PaneParked? <==> r == PaneGone)
      && (e.ProbeDeferred? <==> r == ProbeFailed || Corrupting(r) || (!msg.forced && Limited(r)))
      && (e.Attempted? || e.ResetInterrupted? <==>
          r in {Seen(Working), Seen(Resting)} || (msg.forced && r in {Seen(RateLimited), Seen(UsageLimited)}))
  {
    hide PassedRouting, PassedDedupe, PassedGate, HealsFit, InPlace, AttemptFits, GatePasses;
  }

  /** The gate decides next to last: a stop leaves the row in flight; a scrolled pane, and a provider limit unless the
      row is forced, put it back; a clear pane, a wait that ran out and a broken gate let it through. */
  lemma GateDecides(opts: Options, reg: Registration, msg: Row, d: Dossier, e: Ending)
    requires Explains(opts, reg, msg, d, e) && d.gate.Some?
    ensures var g := d.gate.value.answer;
      && (e.GateStopped? <==> g == Cancelled)
      && (e.GateDeferred? <==>
          g in {CopyModePersisted, CopyModeUnreadable} || (!msg.forced && (g == SawUsageLimit || g.SawRateLimit?)))
      && (e.GateDeferred? ==> e.saw == g)
  {
    hide PassedRouting, PassedDedupe, PassedProbe, HealsFit, InPlace, AttemptFits, SafeToPaste;
  }

  /** A throttled row waits for what the banner says, or else for the backoff of its run; either way plus the spread.
      Other gate deferrals owe no wait of their own. */
  lemma ThrottledRowWaits(opts: Options, reg: Registration, msg: Row, d: Dossier, e: Ending)
    requires Explains(opts, reg, msg, d, e) && e.GateDeferred?
    ensures e.saw.SawRateLimit? && e.saw.hint > 0 ==> e.pause == e.saw.hint + d.spread
    ensures e.saw.SawRateLimit? && e.saw.hint <= 0 ==> e.pause == Backoff(d.throttleRun) + d.spread
    ensures !e.saw.SawRateLimit? ==> e.pause == 0
  {
    hide PassedRouting, PassedDedupe, PassedProbe, HealsFit, InPlace, AttemptFits, Backoff;
  }

  /** Who runs in the pane, where the agent was found if not there, and whether the pane takes text: these block a row.
      An empty pane blocks it even under soft-fail. */
  lemma NamesBlock(opts: Options, reg: Registration, msg: Row, d: Dossier, e: Ending)
    requires Explains(opts, reg, msg, d, e) && d.routing.name.Some?
    ensures var name, lookup := d.routing.name.value, d.routing.lookup;
      && (e == Blocked(NoLiveSession) <==> name.answer == Nobody && !lookup.value.FoundIn?)
      && (e == Blocked(Drift) <==>
          && !opts.driftSoftFail
          && (name.answer == NameAmbiguous
              || (name.answer == AnotherAgent && (lookup.value in {LookupAmbiguous, Nowhere, FoundIn(name.pane)}))))
      && (e == Blocked(NotLive) <==> d.routing.accepts.Some? && !d.routing.accepts.value.answer)
  {
    hide PassedDedupe, PassedGate, PassedProbe, AttemptFits, GatePasses, SafeToPaste;
  }

  /** The first three questions: a saturated provider, a session hosted nowhere over a pane nobody can classify, and a
      copy already visible. */
  lemma EarlyAnswersDecide(opts: Options, reg: Registration, msg: Row, d: Dossier, e: Ending)
    requires Explains(opts, reg, msg, d, e)
    ensures e.CapDeferred? <==> d.routing.saturated == Some(true)
    ensures e.StaleDeferred? || e.StaleParked? <==>
      && d.routing.session == Some(NotHosted)
      && d.routing.staleProbe.Some? && d.routing.staleProbe.value.answer == Seen(Unknown)
    ensures e.Absorbed? <==> d.prior.Some? && d.prior.value.answer.PriorVisible?
    ensures e.Absorbed? ==> d.prior.value.answer == PriorVisible(e.original)
  {
    hide PassedGate, PassedProbe, AttemptFits, GatePasses, SafeToPaste, NameBlock, HealsFit, InPlace;
  }

  /** Every guard that is switched on was asked before the first paste, and let it through. */
  lemma PasteHasItsAnswers(opts: Options, reg: Registration, msg: Row, d: Dossier, e: Ending)
    requires Explains(opts, reg, msg, d, e) && d.first.Some?
    ensures d.routing.saturated == if opts.providerCap then Some(false) else None
    ensures d.routing.session.Some? <==> opts.driftCheck && reg.session
    ensures d.routing.name.Some? <==> opts.driftCheck && !(d.routing.session.Some? && d.routing.session.value.HostedIn?)
    ensures d.routing.accepts.Some? <==> d.routing.name.Some?
    ensures d.routing.accepts.Some? ==> d.routing.accepts.value == Asked(d.first.value.pane, true)
    ensures d.prior.Some? <==> opts.dedupe
    ensures d.prior.Some? ==> d.prior.value.answer in {NoPrior, PriorUnreadable, PriorGone}
    ensures d.gate.Some? <==> opts.gate
    ensures d.gate.Some? ==>
      var g := d.gate.value.answer;
      g in {Clear, MaxWaitExceeded, GateFailed} || (msg.forced && (g == SawUsageLimit || g.SawRateLimit?))
    ensures d.probe.Some? <==> opts.prePasteSafety
    ensures d.probe.Some? ==>
      var r := d.probe.value.answer;
      r in {Seen(Working), Seen(Resting)} || (msg.forced && r in {Seen(RateLimited), Seen(UsageLimited)})
  {
    hide NameBlock, AttemptFits, HealsFit;
  }

  /** The first paste leaves the registered pane only after a registry write, for the pane discovery named. */
  lemma PaneMovesByHealsOnly(opts: Options, reg: Registration, msg: Row, d: Dossier, e: Ending)
    requires Explains(opts, reg, msg, d, e) && d.first.Some?
    ensures var p, r := d.first.value.pane, d.routing;
      if r.nameHeal == Some(true) then r.lookup == Some(FoundIn(p))
      else if r.sessionHeal == Some(true) then r.session == Some(HostedIn(p))
      else p == reg.pane
    ensures d.routing.sessionHeal.Some? <==>
      d.routing.session.Some? && d.routing.session.value.HostedIn? && d.routing.session.value.pane != reg.pane
    ensures d.routing.nameHeal.Some? <==>
      d.routing.lookup.Some? && d.routing.lookup.value.FoundIn? && d.routing.lookup.value.pane != d.routing.name.value.pane
  {
    hide NameBlock, AttemptFits, PassedGate, PassedProbe, PassedDedupe, GatePasses, SafeToPaste;
  }

  /** What is reported is what the last paste came to; a second one is made exactly when the pane vanished, the agent was
      found in another, and that was written. */
  lemma LastPasteIsReported(opts: Options, reg: Registration, msg: Row, d: Dossier, r: PasteResult)
    requires Explains(opts, reg, msg, d, Attempted(r)) || (r == Pasted && Explains(opts, reg, msg, d, ResetInterrupted))
    ensures d.first.None? ==> msg.kind == Control && r == Unsupported
    ensures d.first.Some? ==> r == if d.retry.Some? then d.retry.value.answer else d.first.value.answer
    ensures d.retry.Some? <==>
      && d.first.Some? && d.first.value.answer == PaneMissing
      && d.healLookup.Some? && d.healLookup.value.FoundIn? && d.healLookup.value.pane != d.first.value.pane
      && d.healWrite == Some(true)
  {
    hide PassedUpToGate, PassedProbe, HealsFit;
  }

  /** A settle wait follows a pasted session reset when the pause is configured, and no other paste; a stop in it is the
      one way to be interrupted. */
  lemma SettleWaitFollowsResets(opts: Options, reg: Registration, msg: Row, d: Dossier, e: Ending)
    requires Explains(opts, reg, msg, d, e) && (e.Attempted? || e.ResetInterrupted?)
    ensures d.settleStop.Some? <==>
      (e == ResetInterrupted || e == Attempted(Pasted)) && opts.postCompactPause && IsSessionReset(msg)
    ensures e == ResetInterrupted <==> d.settleStop == Some(true)
  {
    hide PassedUpToGate, PassedProbe, HealsFit, InPlace, IsSessionReset;
  }

  /** With every guard on, an ordinary row is pasted only into a pane at work or at rest. */
  lemma OrdinaryRowsWaitForRest(opts: Options, reg: Registration, msg: Row, d: Dossier, e: Ending)
    requires Explains(opts, reg, msg, d, e) && d.first.Some? && opts.prePasteSafety && !msg.forced
    ensures d.probe in {Some(Asked(d.first.value.pane, Seen(Working))), Some(Asked(d.first.value.pane, Seen(Resting)))}
  {
    hide NameBlock, AttemptFits, HealsFit, PassedUpToGate;
  }

  // ---- Session resets ---------------------------------------------------------------------------------------------

  /** Trimming takes the white space off both ends and nothing else. */
  lemma {:induction false} TrimsBothEnds(s: string) returns (p: string, q: string)
    ensures s == p + TrimSpace(s) + q
    ensures forall c | c in p + q :: c == ' ' || '\t' <= c <= '\r' || c == '\U{0085}' || c == '\U{00A0}'
    ensures var t := TrimSpace(s); t != "" ==> !IsSpace(t[0]) && !IsSpace(t[|t| - 1])
  {
    hide IsSpace;
    p, q := "", "";
    if s != "" {
      SpaceIs(s[0]);
      SpaceIs(s[|s| - 1]);
      if IsSpace(s[0]) {
        var p';
        p', q := TrimsBothEnds(s[1..]);
        p := [s[0]] + p';
        assert p + q == [s[0]] + (p' + q);
      } else if IsSpace(s[|s| - 1]) {
        var q';
        p, q' := TrimsBothEnds(s[..|s| - 1]);
        q := q' + [s[|s| - 1]];
        assert p + q == (p + q') + [s[|s| - 1]];
      }
    }
  }

  lemma SpaceIs(c: char)
    ensures IsSpace(c) ==> c == ' ' || '\t' <= c <= '\r' || c == '\U{0085}' || c == '\U{00A0}'
  {
  }

  predicate White(s: string) {
    forall c | c in s :: c in " \t\n\r" || c == '\U{000B}' || c == '\U{000C}' || c == '\U{0085}' || c == '\U{00A0}'
  }

  lemma {:induction false} TrimsTo(p: string, core: string, q: string)
    requires White(p) && White(q) && core != "" && !IsSpace(core[0]) && !IsSpace(core[|core| - 1])
    ensures TrimSpace(p + core + q) == core
    decreases |p| + |q|
  {
    hide IsSpace;
    var s := p + core + q;
    if p != "" {
      WhiteIs(p, p[0]);
      assert s[1..] == p[1..] + core + q;
      assert forall c | c in p[1..] :: c in p;
      TrimsTo(p[1..], core, q);
    } else if q != "" {
      WhiteIs(q, q[|q| - 1]);
      assert s == core + q && s[..|s| - 1] == p + core + q[..|q| - 1];
      assert forall c | c in q[..|q| - 1] :: c in q;
      TrimsTo(p, core, q[..|q| - 1]);
    } else {
      assert s == core;
    }
  }

  lemma WhiteIs(s: string, c: char)
    requires White(s) && c in s
    ensures IsSpace(c)
  {
  }

  lemma SpaceIsWhite(s: string)
    requires forall c | c in s :: c == ' ' || '\t' <= c <= '\r' || c == '\U{0085}' || c == '\U{00A0}'
    ensures White(s)
  {
    forall c | c in s ensures c in " \t\n\r" || c == '\U{000B}' || c == '\U{000C}' || c == '\U{0085}' || c == '\U{00A0}' {
      if '\t' <= c <= '\r' { assert (c as int) in {9, 10, 11, 12, 13}; }
    }
  }

  /** A session reset is a control row that says /compact or /clear and nothing else but white space. */
  lemma ResetsAreBareCommands(msg: Row)
    ensures IsSessionReset(msg) <==>
      && msg.kind == Control
      && exists p, q :: White(p) && White(q) && (msg.body == p + "/compact" + q || msg.body == p + "/clear" + q)
  {
    hide White, TrimSpace;
    if IsSessionReset(msg) {
      var p, q := TrimsBothEnds(msg.body);
      assert forall c | c in p :: c in p + q;
      assert forall c | c in q :: c in p + q;
      SpaceIsWhite(p);
      SpaceIsWhite(q);
    }
    if p, q :| White(p) && White(q) && (msg.body == p + "/compact" + q || msg.body == p + "/clear" + q) {
      if msg.body == p + "/compact" + q { TrimsTo(p, "/compact", q); } else { TrimsTo(p, "/clear", q); }
    }
  }
}
