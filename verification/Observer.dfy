/** The dead-mailman observer: one alert per episode of a mailman unit that is down or restarting in a loop.

    `Step` is what one sweep does to one agent's episode; the sweep is proved to do that to every agent. The laws
    speak of an agent's history of turns alone. */
module Observer {
  import opened Wrappers

  type Agent = string

  datatype Probe = ProbeFailed | Unit(active: bool, enabled: bool, restarts: int)

  /** A listed agent: whether it is delivered by pasting, what its unit says, and whether an alert would insert. */
  datatype Listed = Listed(name: Agent, pastes: bool, probe: Probe, noticeLands: bool)

  datatype Listing = ListFailed | Roster(agents: seq<Listed>)

  datatype Episode = Episode(lastRestarts: int, inactiveSamples: nat, restartStable: nat, alerted: bool)

  /** What a sweep meant for one agent; `refused` if an alert was due and the store would not take it. */
  datatype Turn = Skipped | Gone | Seen(active: bool, enabled: bool, restarts: int, refused: bool)

  // ---- One agent, one turn --------------------------------------------------------------------------------------

  function Fresh(restarts: int): Episode {
    Episode(restarts, 0, 0, false)
  }

  /** The episode a sample is added to. */
  function Base(ep: Option<Episode>, restarts: int): Episode {
    if ep.Some? then ep.value else Fresh(restarts)
  }

  /** The episode once the sample is counted, before the verdict. */
  function Counted(ep: Option<Episode>, t: Turn): Episode
    requires t.Seen? && t.enabled
  {
    var e := Base(ep, t.restarts);
    if !t.active then e.(restartStable := 0, inactiveSamples := e.inactiveSamples + 1)
    else
      var steady := t.restarts == e.lastRestarts;
      var stable := if steady then e.restartStable + 1 else 0;
      e.(inactiveSamples := 0, restartStable := stable,
         alerted := e.alerted && e.inactiveSamples == 0 && !(steady && stable >= 2))
  }

  predicate Sick(ep: Option<Episode>, t: Turn)
    requires t.Seen? && t.enabled
  {
    var e := Counted(ep, t);
    if t.active then t.restarts - e.lastRestarts >= 3 else e.inactiveSamples >= 2
  }

  predicate Tries(ep: Option<Episode>, t: Turn) {
    t.Seen? && t.enabled && Sick(ep, t) && !Counted(ep, t).alerted
  }

  predicate Sends(ep: Option<Episode>, t: Turn) {
    Tries(ep, t) && !t.refused
  }

  function Step(ep: Option<Episode>, t: Turn): Option<Episode> {
    match t
    case Skipped => ep
    case Gone => None
    case Seen(active, enabled, restarts, refused) =>
      if !enabled then Some(Fresh(restarts))
      else if refused then Some(Counted(ep, t))
      else Some(Counted(ep, t).(lastRestarts := restarts, alerted := Counted(ep, t).alerted || Sends(ep, t)))
  }

  // ---- The sweep --------------------------------------------------------------------------------------------------

  predicate DistinctNames(agents: seq<Listed>) {
    forall i, j | 0 <= i < j < |agents| :: agents[i].name != agents[j].name
  }

  function TurnOf(l: Listed, refused: bool): Turn {
    if !l.pastes then Gone
    else if l.probe.ProbeFailed? then Skipped
    else Seen(l.probe.active, l.probe.enabled, l.probe.restarts, refused)
  }

  function IndexOf(agents: seq<Listed>, a: Agent): (i: nat)
    ensures i <= |agents| && (i < |agents| ==> agents[i].name == a) && forall j | 0 <= j < i :: agents[j].name != a
  {
    if agents == [] then 0
    else
      var i := IndexOf(agents[..|agents| - 1], a);
      if i < |agents| - 1 || agents[i].name == a then i else |agents|
  }

  function TurnUpTo(agents: seq<Listed>, n: nat, a: Agent): Turn
    requires n <= |agents|
  {
    if IndexOf(agents, a) < n then TurnOf(agents[IndexOf(agents, a)], false) else Skipped
  }

  /** The turn of an agent in a sweep that ended, or, if not `done`, broke off at the last of the first `n` agents
      because the store refused its alert. */
  function TurnIn(agents: seq<Listed>, n: nat, done: bool, a: Agent): Turn
    requires n <= |agents|
  {
    if done && IndexOf(agents, a) == |agents| then Gone
    else if !done && n > 0 && a == agents[n - 1].name then TurnOf(agents[n - 1], true)
    else TurnUpTo(agents, n, a)
  }

  lemma TurnAdvances(agents: seq<Listed>, n: nat)
    requires n < |agents| && DistinctNames(agents)
    ensures TurnUpTo(agents, n, agents[n].name) == Skipped
    ensures TurnUpTo(agents, n + 1, agents[n].name) == TurnOf(agents[n], false)
    ensures forall a | a != agents[n].name :: TurnUpTo(agents, n + 1, a) == TurnUpTo(agents, n, a)
  {
    assert IndexOf(agents, agents[n].name) == n;
  }

  function Only(episodes: map<Agent, Episode>, names: set<Agent>): map<Agent, Episode> {
    map a | a in episodes && a in names :: episodes[a]
  }

  function Lookup(episodes: map<Agent, Episode>, a: Agent): Option<Episode> {
    if a in episodes then Some(episodes[a]) else None
  }

  /** A sweep breaks off exactly at the first due alert that the store refuses. */
  ghost predicate BreaksOffRightly(before: map<Agent, Episode>, agents: seq<Listed>, n: nat, done: bool) {
    && n <= |agents| && (done ==> n == |agents|)
    && (forall i | 0 <= i < n && Tries(Lookup(before, agents[i].name), TurnOf(agents[i], false)) ::
          agents[i].noticeLands || (!done && i == n - 1))
    && (!done ==> n > 0 && Tries(Lookup(before, agents[n - 1].name), TurnOf(agents[n - 1], false)) && !agents[n - 1].noticeLands)
  }

  class MailmanObserver {
    var episodes: map<Agent, Episode>

    constructor ()
      ensures episodes == map[]
    {
      episodes := map[];
    }

    /** One agent of the roster. Says whether an alert was sent, and whether the store refused it. */
    method Inspect(l: Listed) returns (sent: bool, broke: bool)
      modifies this
      ensures forall a | a != l.name :: Lookup(episodes, a) == old(Lookup(episodes, a))
      ensures broke <==> Tries(old(Lookup(episodes, l.name)), TurnOf(l, false)) && !l.noticeLands
      ensures sent <==> Tries(old(Lookup(episodes, l.name)), TurnOf(l, false)) && l.noticeLands
      ensures Lookup(episodes, l.name) == Step(old(Lookup(episodes, l.name)), TurnOf(l, broke))
    {
      sent, broke := false, false;
      var name := l.name;
      if !l.pastes {
        episodes := episodes - {name};
        return;
      }
      if l.probe.ProbeFailed? { return; }
      var obs := l.probe;
      if name !in episodes { episodes := episodes[name := Fresh(obs.restarts)]; }
      var ep := episodes[name];
      if !obs.enabled {
        episodes := episodes[name := Fresh(obs.restarts)];
        return;
      }
      var sick := false;
      if !obs.active {
        ep := ep.(restartStable := 0, inactiveSamples := ep.inactiveSamples + 1);
        sick := ep.inactiveSamples >= 2;
      } else {
        var wasInactive := ep.inactiveSamples > 0;
        ep := ep.(inactiveSamples := 0);
        var restartDelta := obs.restarts - ep.lastRestarts;
        if wasInactive { ep := ep.(alerted := false); }
        if restartDelta == 0 {
          ep := ep.(restartStable := ep.restartStable + 1);
          if ep.restartStable >= 2 { ep := ep.(alerted := false); }
        } else {
          ep := ep.(restartStable := 0);
        }
        sick := restartDelta >= 3;
      }
      if sick && !ep.alerted {
        if !l.noticeLands {
          broke := true;
          episodes := episodes[name := ep];
          return;
        }
        sent := true;
        ep := ep.(alerted := true);
      }
      ep := ep.(lastRestarts := obs.restarts);
      episodes := episodes[name := ep];
    }

    /** The next agent of a sweep that has come to agent `n`. */
    method Visit(ghost before: map<Agent, Episode>, agents: seq<Listed>, n: nat, alerts: set<Agent>)
      returns (alerts': set<Agent>, broke: bool)
      requires DistinctNames(agents) && n < |agents| && Swept(before, agents, n, episodes, alerts)
      modifies this
      ensures if broke then Ended(before, agents, n + 1, false, episodes, alerts')
              else Swept(before, agents, n + 1, episodes, alerts')
    {
      hide Step, Tries, Sends, TurnOf, Swept, Ended, Lookup;
      ghost var mid := episodes;
      var sent;
      sent, broke := Inspect(agents[n]);
      SweptStep(before, agents, n, mid, episodes, alerts, sent, broke);
      alerts' := alerts + if sent then {agents[n].name} else {};
    }

    method Sweep(listing: Listing) returns (alerts: set<Agent>, reached: nat, done: bool)
      requires listing.Roster? ==> DistinctNames(listing.agents)
      modifies this
      ensures listing.ListFailed? ==> episodes == old(episodes) && alerts == {} && !done
      ensures listing.Roster? ==> reached <= |listing.agents|
      ensures listing.Roster? ==> Ended(old(episodes), listing.agents, reached, done, episodes, alerts)
    {
      hide DistinctNames, Step, Tries, Sends, TurnOf, Swept, Ended, Only, Lookup;
      alerts, reached, done := {}, 0, false;
      if listing.ListFailed? { return; }
      var agents := listing.agents;
      ghost var before := episodes;
      NothingSwept(before, agents);
      while reached < |agents|
        invariant reached <= |agents| && Swept(before, agents, reached, episodes, alerts)
      {
        var broke;
        alerts, broke := Visit(before, agents, reached, alerts);
        reached := reached + 1;
        if broke { return; }
      }
      done := true;
      var seen := set l | l in agents :: l.name;
      SweptEnd(before, agents, episodes, alerts, seen);
      episodes := Only(episodes, seen);
    }
  }

  /** The first `n` of the roster have had their turn. */
  ghost predicate Swept(before: map<Agent, Episode>, agents: seq<Listed>, n: nat, after: map<Agent, Episode>, alerts: set<Agent>) {
    && n <= |agents|
    && (forall a :: Lookup(after, a) == Step(Lookup(before, a), TurnUpTo(agents, n, a)))
    && (forall a :: a in alerts <==> Sends(Lookup(before, a), TurnUpTo(agents, n, a)))
    && (forall i | 0 <= i < n && Tries(Lookup(before, agents[i].name), TurnOf(agents[i], false)) :: agents[i].noticeLands)
  }

  /** A sweep gives every agent its turn, and breaks off exactly at the first due alert that the store refuses. */
  ghost predicate Ended(
    before: map<Agent, Episode>, agents: seq<Listed>, n: nat, done: bool, after: map<Agent, Episode>, alerts: set<Agent>)
  {
    && n <= |agents|
    && (forall a :: Lookup(after, a) == Step(Lookup(before, a), TurnIn(agents, n, done, a)))
    && (forall a :: a in alerts <==> Sends(Lookup(before, a), TurnIn(agents, n, done, a)))
    && BreaksOffRightly(before, agents, n, done)
  }

  lemma NothingSwept(before: map<Agent, Episode>, agents: seq<Listed>)
    ensures Swept(before, agents, 0, before, {})
  {
  }

  lemma SweptStep(before: map<Agent, Episode>, agents: seq<Listed>, n: nat, mid: map<Agent, Episode>,
                  after: map<Agent, Episode>, alerts: set<Agent>, sent: bool, broke: bool)
    requires DistinctNames(agents) && n < |agents| && Swept(before, agents, n, mid, alerts)
    requires forall a | a != agents[n].name :: Lookup(after, a) == Lookup(mid, a)
    requires broke <==> Tries(Lookup(mid, agents[n].name), TurnOf(agents[n], false)) && !agents[n].noticeLands
    requires sent <==> Tries(Lookup(mid, agents[n].name), TurnOf(agents[n], false)) && agents[n].noticeLands
    requires Lookup(after, agents[n].name) == Step(Lookup(mid, agents[n].name), TurnOf(agents[n], broke))
    ensures var alerts' := alerts + (if sent then {agents[n].name} else {});
      if broke then Ended(before, agents, n + 1, false, after, alerts') else Swept(before, agents, n + 1, after, alerts')
  {
    hide Tries, TurnOf, TurnUpTo, IndexOf, Step, Sends;
    var l := agents[n];
    TurnAdvances(agents, n);
    Quiet(Lookup(before, l.name));
    SendsUnlessRefused(Lookup(before, l.name), l);
  }

  lemma SweptEnd(before: map<Agent, Episode>, agents: seq<Listed>, mid: map<Agent, Episode>, alerts: set<Agent>, seen: set<Agent>)
    requires DistinctNames(agents) && Swept(before, agents, |agents|, mid, alerts) && seen == set l | l in agents :: l.name
    ensures Ended(before, agents, |agents|, true, Only(mid, seen), alerts)
  {
    hide Tries, TurnOf, TurnUpTo, IndexOf, Step, Sends;
    var after := Only(mid, seen);
    forall a
      ensures Lookup(after, a) == Step(Lookup(before, a), TurnIn(agents, |agents|, true, a))
      ensures a in alerts <==> Sends(Lookup(before, a), TurnIn(agents, |agents|, true, a))
    {
      Unlisted(agents, seen, a);
      Quiet(Lookup(before, a));
    }
  }

  lemma SendsUnlessRefused(ep: Option<Episode>, l: Listed)
    ensures Sends(ep, TurnOf(l, false)) <==> Tries(ep, TurnOf(l, false))
    ensures !Sends(ep, TurnOf(l, true)) && (Tries(ep, TurnOf(l, true)) <==> Tries(ep, TurnOf(l, false)))
  {
  }

  lemma Quiet(ep: Option<Episode>)
    ensures Step(ep, Skipped) == ep && !Sends(ep, Skipped) && Step(ep, Gone) == None && !Sends(ep, Gone)
  {
  }

  lemma Unlisted(agents: seq<Listed>, seen: set<Agent>, a: Agent)
    requires seen == set l | l in agents :: l.name
    ensures a in seen <==> IndexOf(agents, a) < |agents|
    ensures a !in seen ==> TurnUpTo(agents, |agents|, a) == Skipped
  {
    if IndexOf(agents, a) < |agents| { assert agents[IndexOf(agents, a)] in agents; }
  }

  // ---- The laws, on an agent's history ------------------------------------------------------------------------------

  /** The last turn before `k` that told anything, or -1. */
  function Prev(turns: seq<Turn>, k: nat): (p: int)
    requires k <= |turns|
    ensures -1 <= p < k && (p >= 0 ==> !turns[p].Skipped?)
  {
    if k == 0 then -1 else if !turns[k - 1].Skipped? then k - 1 else Prev(turns, k - 1)
  }

  predicate Live(turns: seq<Turn>, k: int) {
    0 <= k < |turns| && turns[k].Seen? && turns[k].enabled
  }

  predicate DownAt(turns: seq<Turn>, k: int) {
    Live(turns, k) && !turns[k].active
  }

  /** The restart count a sample is compared with: the one before, unless that sample's alert was refused. */
  function PriorRestarts(turns: seq<Turn>, k: nat): int
    requires k < |turns| && turns[k].Seen?
  {
    var p := Prev(turns, k);
    if p < 0 || turns[p].Gone? then turns[k].restarts
    else if turns[p].enabled && turns[p].refused then PriorRestarts(turns, p)
    else turns[p].restarts
  }

  predicate SteadyAt(turns: seq<Turn>, k: int) {
    Live(turns, k) && turns[k].active && turns[k].restarts == PriorRestarts(turns, k)
  }

  /** Down for the second sample running, or restarted at least three times since the last one. */
  predicate IllAt(turns: seq<Turn>, k: nat)
    requires k < |turns|
  {
    Live(turns, k)
    && if turns[k].active then turns[k].restarts - PriorRestarts(turns, k) >= 3 else DownAt(turns, Prev(turns, k))
  }

  /** Off the roster or out of paste mode, disabled, up again after being down, or up and steady twice running. */
  predicate RearmsAt(turns: seq<Turn>, k: nat)
    requires k < |turns|
  {
    || turns[k].Gone?
    || (turns[k].Seen? && !turns[k].enabled)
    || (Live(turns, k) && turns[k].active && DownAt(turns, Prev(turns, k)))
    || (SteadyAt(turns, k) && SteadyAt(turns, Prev(turns, k)))
  }

  /** Before turn `n` an alert is out that nothing has re-armed. */
  predicate AlarmOut(turns: seq<Turn>, n: nat)
    requires n <= |turns|
    decreases n, 0
  {
    n > 0 && ((AlarmOut(turns, n - 1) && !RearmsAt(turns, n - 1)) || AlertAt(turns, n - 1))
  }

  predicate DueAt(turns: seq<Turn>, k: nat)
    requires k < |turns|
    decreases k, 1
  {
    IllAt(turns, k) && !(AlarmOut(turns, k) && !RearmsAt(turns, k))
  }

  predicate AlertAt(turns: seq<Turn>, k: nat)
    requires k < |turns|
    decreases k, 2
  {
    DueAt(turns, k) && !turns[k].refused
  }

  function After(turns: seq<Turn>, n: nat): Option<Episode>
    requires n <= |turns|
  {
    if n == 0 then None else Step(After(turns, n - 1), turns[n - 1])
  }

  /** What an episode remembers of the history before turn `n`. */
  predicate Remembers(turns: seq<Turn>, n: nat, ep: Option<Episode>)
    requires n <= |turns|
  {
    var p := Prev(turns, n);
    && (ep.Some? <==> p >= 0 && turns[p].Seen?)
    && (ep.Some? ==>
      && (ep.value.inactiveSamples > 0 <==> DownAt(turns, p))
      && (ep.value.restartStable > 0 <==> SteadyAt(turns, p))
      && ep.value.lastRestarts == (if turns[p].enabled && turns[p].refused then PriorRestarts(turns, p) else turns[p].restarts)
      && (ep.value.alerted ==> turns[p].enabled))
    && ((ep.Some? && ep.value.alerted) <==> AlarmOut(turns, n))
  }

  lemma CountedFits(turns: seq<Turn>, n: nat, ep: Option<Episode>)
    requires n < |turns| && Remembers(turns, n, ep) && Live(turns, n)
    ensures var e := Counted(ep, turns[n]);
      && (Sick(ep, turns[n]) <==> IllAt(turns, n))
      && (e.alerted <==> AlarmOut(turns, n) && !RearmsAt(turns, n))
      && (e.inactiveSamples > 0 <==> !turns[n].active)
      && (e.restartStable > 0 <==> SteadyAt(turns, n))
      && e.lastRestarts == PriorRestarts(turns, n)
  {
    hide AlarmOut;
  }

  lemma AlarmNext(turns: seq<Turn>, n: nat)
    requires n < |turns|
    ensures AlarmOut(turns, n + 1) <==> (AlarmOut(turns, n) && !RearmsAt(turns, n)) || AlertAt(turns, n)
    ensures AlertAt(turns, n) <==> DueAt(turns, n) && !turns[n].refused
    ensures DueAt(turns, n) <==> IllAt(turns, n) && !(AlarmOut(turns, n) && !RearmsAt(turns, n))
    ensures Prev(turns, n + 1) == if turns[n].Skipped? then Prev(turns, n) else n
  {
  }

  lemma QuietTurn(turns: seq<Turn>, n: nat)
    requires n < |turns| && !Live(turns, n)
    ensures !SteadyAt(turns, n) && !DownAt(turns, n) && !IllAt(turns, n)
    ensures RearmsAt(turns, n) <==> !turns[n].Skipped?
  {
  }

  lemma LiveTurn(turns: seq<Turn>, n: nat, ep: Option<Episode>)
    requires n < |turns| && Remembers(turns, n, ep) && Live(turns, n)
    ensures Remembers(turns, n + 1, Step(ep, turns[n]))
    ensures Sends(ep, turns[n]) <==> AlertAt(turns, n)
    ensures Tries(ep, turns[n]) <==> DueAt(turns, n)
  {
    CountedFits(turns, n, ep);
    hide Counted, Sick, SteadyAt, RearmsAt, PriorRestarts, IllAt, AlarmOut, AlertAt, DueAt, Prev;
    AlarmNext(turns, n);
  }

  lemma RemembersNext(turns: seq<Turn>, n: nat, ep: Option<Episode>)
    requires n < |turns| && Remembers(turns, n, ep)
    ensures Remembers(turns, n + 1, Step(ep, turns[n]))
    ensures Sends(ep, turns[n]) <==> AlertAt(turns, n)
    ensures Tries(ep, turns[n]) <==> DueAt(turns, n)
  {
    hide Counted, Sick, SteadyAt, RearmsAt, PriorRestarts, IllAt, AlarmOut, AlertAt, DueAt, Prev;
    if Live(turns, n) {
      LiveTurn(turns, n, ep);
    } else {
      QuietTurn(turns, n);
      AlarmNext(turns, n);
    }
  }

  /** Episodes and histories agree: the observer alerts exactly when the law on histories says so. */
  lemma {:induction false} EpisodeRemembers(turns: seq<Turn>, n: nat)
    requires n <= |turns|
    ensures Remembers(turns, n, After(turns, n))
    ensures n < |turns| ==> (Sends(After(turns, n), turns[n]) <==> AlertAt(turns, n))
    ensures n < |turns| ==> (Tries(After(turns, n), turns[n]) <==> DueAt(turns, n))
  {
    if n > 0 {
      EpisodeRemembers(turns, n - 1);
      RemembersNext(turns, n - 1, After(turns, n - 1));
    }
    if n < |turns| { RemembersNext(turns, n, After(turns, n)); }
  }

  /** Between two alerts for one agent lies a re-arm. */
  lemma {:induction false} AlertsAreApart(turns: seq<Turn>, i: nat, j: nat)
    requires i < j < |turns| && AlertAt(turns, i) && AlertAt(turns, j)
    ensures exists k :: i < k <= j && RearmsAt(turns, k)
  {
    hide RearmsAt, IllAt;
    var k := i + 1;
    while k < j && !RearmsAt(turns, k)
      invariant i < k <= j && AlarmOut(turns, k)
    {
      k := k + 1;
    }
    assert RearmsAt(turns, k);
  }

  /** No alert on a first sample, nor on a single inactive one: an inactive alert follows an inactive sample, and a
      restart alert a sample from which the count rose by three. */
  lemma AlertNeedsTwoSamples(turns: seq<Turn>, k: nat)
    requires k < |turns| && AlertAt(turns, k)
    ensures var p := Prev(turns, k);
      && p >= 0 && turns[p].Seen? && turns[k].Seen?
      && (if turns[k].active then turns[k].restarts >= PriorRestarts(turns, k) + 3 else DownAt(turns, p))
  {
    assert IllAt(turns, k);
  }

  lemma {:induction false} AfterWithout(turns: seq<Turn>, k: nat, n: nat)
    requires k < |turns| && turns[k].Skipped? && n <= |turns| - 1
    ensures After(turns[..k] + turns[k + 1..], n) == After(turns, if n <= k then n else n + 1)
  {
    hide Step;
    if n > 0 { AfterWithout(turns, k, n - 1); }
    if n >= k { Quiet(After(turns, k)); }
  }

  /** A sweep that says nothing about an agent, as one whose probe of it failed, leaves no trace: no alert then, and
      every later alert falls as if it had not been. */
  lemma SkippedTurnsLeaveNoTrace(turns: seq<Turn>, k: nat, j: nat)
    requires k < j < |turns| && turns[k].Skipped?
    ensures !AlertAt(turns, k)
    ensures AlertAt(turns[..k] + turns[k + 1..], j - 1) <==> AlertAt(turns, j)
  {
    hide AlertAt, Step, Sends;
    var without := turns[..k] + turns[k + 1..];
    EpisodeRemembers(turns, k);
    Quiet(After(turns, k));
    EpisodeRemembers(turns, j);
    EpisodeRemembers(without, j - 1);
    AfterWithout(turns, k, j - 1);
    assert without[j - 1] == turns[j];
  }

  /** An agent that was off the roster or out of paste mode starts over: the next alert has a sample of its own before
      it. */
  lemma GoneStartsOver(turns: seq<Turn>, k: nat, j: nat)
    requires k < j < |turns| && turns[k].Gone? && AlertAt(turns, j)
    ensures exists i :: k < i < j && turns[i].Seen?
  {
    hide AlertAt;
    AlertNeedsTwoSamples(turns, j);
    PrevIsLast(turns, j, k);
  }

  lemma {:induction false} PrevIsLast(turns: seq<Turn>, j: nat, k: nat)
    requires k < j <= |turns| && !turns[k].Skipped?
    ensures Prev(turns, j) >= k
  {
    if turns[j - 1].Skipped? { PrevIsLast(turns, j - 1, k); }
  }

  // ---- Sweep after sweep --------------------------------------------------------------------------------------------

  /** One sweep: what was listed, and how far it got. */
  datatype Pass = Pass(listing: Listing, reached: nat, done: bool)

  predicate Possible(pass: Pass) {
    pass.listing.Roster? ==> DistinctNames(pass.listing.agents) && pass.reached <= |pass.listing.agents|
  }

  function TurnAt(pass: Pass, a: Agent): Turn
    requires Possible(pass)
  {
    if pass.listing.ListFailed? then Skipped else TurnIn(pass.listing.agents, pass.reached, pass.done, a)
  }

  /** What a sweep says about an agent, by its place on the roster. A failed probe says nothing; an agent that is not
      pasted to is gone, and so is one that a finished sweep did not list; a sweep that broke off says nothing about
      the rest. */
  lemma TurnsByListing(pass: Pass, a: Agent)
    requires Possible(pass)
    ensures pass.listing.ListFailed? ==> TurnAt(pass, a) == Skipped
    ensures pass.listing.Roster? ==>
      var agents := pass.listing.agents;
      && (forall i | 0 <= i < |agents| && agents[i].name == a ::
            TurnAt(pass, a) == (
              if i >= pass.reached then Skipped
              else if !agents[i].pastes then Gone
              else match agents[i].probe
                case ProbeFailed => Skipped
                case Unit(active, enabled, restarts) =>
                  Seen(active, enabled, restarts, !pass.done && i == pass.reached - 1)))
      && ((forall i | 0 <= i < |agents| :: agents[i].name != a) ==> TurnAt(pass, a) == if pass.done then Gone else Skipped)
  {
    if pass.listing.Roster? {
      var agents := pass.listing.agents;
      forall i | 0 <= i < |agents| && agents[i].name == a ensures IndexOf(agents, a) == i {
        IndexOfName(agents, i);
      }
    }
  }

  function History(passes: seq<Pass>, a: Agent): (turns: seq<Turn>)
    requires forall k | 0 <= k < |passes| :: Possible(passes[k])
    ensures |turns| == |passes| && forall k | 0 <= k < |passes| :: turns[k] == TurnAt(passes[k], a)
  {
    seq(|passes|, k requires 0 <= k < |passes| => TurnAt(passes[k], a))
  }

  lemma {:induction false} AfterPrefix(turns: seq<Turn>, t: Turn, n: nat)
    requires n <= |turns|
    ensures After(turns + [t], n) == After(turns, n)
  {
    if n > 0 { AfterPrefix(turns, t, n - 1); }
  }

  /** The observer's loop: an agent is alerted on in exactly the sweeps the law on its history names. */
  method Watch(listings: seq<Listing>) returns (alerts: seq<set<Agent>>, ghost passes: seq<Pass>)
    requires forall k | 0 <= k < |listings| && listings[k].Roster? :: DistinctNames(listings[k].agents)
    ensures |alerts| == |passes| == |listings|
    ensures forall k | 0 <= k < |passes| :: passes[k].listing == listings[k] && Possible(passes[k])
    ensures forall a, k | 0 <= k < |alerts| :: a in alerts[k] <==> AlertAt(History(passes, a), k)
    ensures forall k | 0 <= k < |passes| && listings[k].Roster? :: EndsRightly(passes, k)
  {
    hide AlertAt, Step, Sends, After, TurnAt, BreaksOffRightly, EndsRightly, Ended;
    var observer := new MailmanObserver();
    alerts, passes := [], [];
    ghost var befores := [];
    NothingYet();
    while |alerts| < |listings|
      invariant |alerts| == |passes| <= |listings|
      invariant forall k | 0 <= k < |passes| :: passes[k].listing == listings[k] && Possible(passes[k])
      invariant forall a :: Lookup(observer.episodes, a) == After(History(passes, a), |passes|)
      invariant forall a, k | 0 <= k < |alerts| :: a in alerts[k] <==> Sends(After(History(passes, a), k), History(passes, a)[k])
      invariant |befores| == |passes|
      invariant forall k | 0 <= k < |passes| && listings[k].Roster? ::
        BreaksOffRightly(befores[k], listings[k].agents, passes[k].reached, passes[k].done)
      invariant forall a, k | 0 <= k < |passes| :: Lookup(befores[k], a) == After(History(passes, a), k)
    {
      var k := |alerts|;
      ghost var before, before' := observer.episodes, passes;
      var sent, reached, done := observer.Sweep(listings[k]);
      ghost var pass := Pass(listings[k], reached, done);
      SweepIsATurn(before, observer.episodes, sent, pass);
      passes, alerts, befores := passes + [pass], alerts + [sent], befores + [before];
      OnePassMore(before', pass);
    }
    forall a, k | 0 <= k < |alerts| ensures a in alerts[k] <==> AlertAt(History(passes, a), k) {
      EpisodeRemembers(History(passes, a), k);
    }
    forall k | 0 <= k < |passes| && listings[k].Roster? ensures EndsRightly(passes, k) {
      RightInHistory(befores[k], passes, k);
    }
  }

  /** A sweep goes to the end of its roster, or breaks off at the first agent that is due an alert which will not insert. */
  ghost predicate EndsRightly(passes: seq<Pass>, k: nat)
    requires k < |passes| && forall j | 0 <= j < |passes| :: Possible(passes[j])
    requires passes[k].listing.Roster?
  {
    var agents, n, done := passes[k].listing.agents, passes[k].reached, passes[k].done;
    && n <= |agents| && (done ==> n == |agents|)
    && (forall i | 0 <= i < n && DueAt(History(passes, agents[i].name), k) :: agents[i].noticeLands || (!done && i == n - 1))
    && (!done ==> n > 0 && DueAt(History(passes, agents[n - 1].name), k) && !agents[n - 1].noticeLands)
  }

  lemma RightInHistory(before: map<Agent, Episode>, passes: seq<Pass>, k: nat)
    requires k < |passes| && forall j | 0 <= j < |passes| :: Possible(passes[j])
    requires passes[k].listing.Roster?
    requires forall a :: Lookup(before, a) == After(History(passes, a), k)
    requires BreaksOffRightly(before, passes[k].listing.agents, passes[k].reached, passes[k].done)
    ensures EndsRightly(passes, k)
  {
    hide DueAt, After, Tries, IndexOf, History;
    var agents, n, done := passes[k].listing.agents, passes[k].reached, passes[k].done;
    forall i | 0 <= i < n
      ensures DueAt(History(passes, agents[i].name), k) <==> Tries(Lookup(before, agents[i].name), TurnOf(agents[i], false))
    {
      EpisodeRemembers(History(passes, agents[i].name), k);
      IndexOfName(agents, i);
      SameTry(Lookup(before, agents[i].name), agents[i]);
    }
  }

  lemma IndexOfName(agents: seq<Listed>, i: nat)
    requires i < |agents| && DistinctNames(agents)
    ensures IndexOf(agents, agents[i].name) == i
  {
  }

  lemma SameTry(ep: Option<Episode>, l: Listed)
    ensures Tries(ep, TurnOf(l, true)) <==> Tries(ep, TurnOf(l, false))
  {
  }

  lemma NothingYet()
    ensures forall a :: After(History([], a), 0) == Lookup(map[], a) == None
  {
  }

  lemma OnePassMore(passes: seq<Pass>, pass: Pass)
    requires forall k | 0 <= k < |passes| :: Possible(passes[k])
    requires Possible(pass)
    ensures forall a, j | 0 <= j <= |passes| :: After(History(passes + [pass], a), j) == After(History(passes, a), j)
    ensures forall a, j | 0 <= j < |passes| :: History(passes + [pass], a)[j] == History(passes, a)[j]
    ensures forall a :: After(History(passes + [pass], a), |passes| + 1) == Step(After(History(passes, a), |passes|), TurnAt(pass, a))
  {
    hide Step, TurnAt;
    forall a, j | 0 <= j <= |passes| ensures After(History(passes + [pass], a), j) == After(History(passes, a), j) {
      assert History(passes + [pass], a) == History(passes, a) + [TurnAt(pass, a)];
      AfterPrefix(History(passes, a), TurnAt(pass, a), j);
    }
  }

  lemma SweepIsATurn(before: map<Agent, Episode>, after: map<Agent, Episode>, alerts: set<Agent>, pass: Pass)
    requires Possible(pass)
    requires pass.listing.ListFailed? ==> after == before && alerts == {}
    requires pass.listing.Roster? ==> Ended(before, pass.listing.agents, pass.reached, pass.done, after, alerts)
    ensures forall a :: Lookup(after, a) == Step(Lookup(before, a), TurnAt(pass, a))
    ensures forall a :: a in alerts <==> Sends(Lookup(before, a), TurnAt(pass, a))
    ensures pass.listing.Roster? ==> BreaksOffRightly(before, pass.listing.agents, pass.reached, pass.done)
  {
    hide Step, Sends, TurnIn, BreaksOffRightly;
    forall a ensures Step(Lookup(before, a), Skipped) == Lookup(before, a) && !Sends(Lookup(before, a), Skipped) {
      Quiet(Lookup(before, a));
    }
  }
}
