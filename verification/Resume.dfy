/** The auto-resume automaton: what the mailman pastes into its own pane while its provider throttles it.

    `RateLimitResume` is the running state. `Prescribed` says what is due from the history of sightings and
    decisions alone; the method is proved to decide exactly that, and the laws are proved of lawful histories. */
module Resume {

  /** A wait for the upcoming attempt and the banner's hint. */
  type Backoff = (int, int) -> int

  /** One self-observation: is the pane rate-limited, what does the banner say, what time is it, and what the backoff
      would answer at this moment. The backoff draws a fresh jitter at every call, so each sighting has its own. */
  datatype Sighting = Sighting(limited: bool, retryAfter: int, now: int, backoff: Backoff)

  datatype Action = Noop | Wait | Paste | GiveUp | Recovered

  // ---- The law, on histories ----------------------------------------------------------------------------------

  /** Where the unbroken run of rate-limited sightings at the end began. */
  function Start(seen: seq<Sighting>): (s: nat)
    ensures s <= |seen| && forall i | s <= i < |seen| :: seen[i].limited
    ensures s > 0 && s < |seen| ==> !seen[s - 1].limited
    ensures s == |seen| <==> seen == [] || !seen[|seen| - 1].limited
  {
    if seen == [] || !seen[|seen| - 1].limited then |seen| else Start(seen[..|seen| - 1])
  }

  function Count(did: seq<Action>, from: nat, a: Action): (n: nat)
    requires from <= |did|
    ensures n > 0 <==> exists i :: from <= i < |did| && did[i] == a
    decreases |did|
  {
    if from == |did| then 0
    else Count(did[..|did| - 1], from, a) + if did[|did| - 1] == a then 1 else 0
  }

  /** The last paste since `s`, or the sighting that opened the episode. */
  function Anchor(did: seq<Action>, s: nat): (k: nat)
    requires s < |did|
    ensures s <= k < |did| && (k == s || did[k] == Paste) && forall i | k < i < |did| :: did[i] != Paste
  {
    if |did| - 1 == s || did[|did| - 1] == Paste then |did| - 1 else Anchor(did[..|did| - 1], s)
  }

  /** Earliest time of the next paste. */
  function Due(seen: seq<Sighting>, did: seq<Action>, s: nat): int
    requires s < |did| <= |seen|
  {
    var k := Anchor(did, s);
    seen[k].now + seen[k].backoff(Count(did, s, Paste) + 1, seen[k].retryAfter)
  }

  function Prescribed(seen: seq<Sighting>, did: seq<Action>, limit: int): Action
    requires |seen| == |did| + 1
  {
    var n, s := |did|, Start(seen);
    if !seen[n].limited then (if n > 0 && seen[n - 1].limited then Recovered else Noop)
    else if s == n then Wait
    else if Count(did, s, GiveUp) > 0 then Noop
    else if seen[n].now < Due(seen, did, s) then Wait
    else if Count(did, s, Paste) >= limit then GiveUp
    else Paste
  }

  ghost predicate Lawful(seen: seq<Sighting>, did: seq<Action>, limit: int) {
    |seen| == |did| && forall k | 0 <= k < |did| :: did[k] == Prescribed(seen[..k + 1], did[..k], limit)
  }

  lemma LawfulStep(seen: seq<Sighting>, did: seq<Action>, now: Sighting, act: Action, limit: int)
    requires Lawful(seen, did, limit) && act == Prescribed(seen + [now], did, limit)
    ensures Lawful(seen + [now], did + [act], limit)
  {
    hide Prescribed;
    var seen', did' := seen + [now], did + [act];
    forall k | 0 <= k < |did'| ensures did'[k] == Prescribed(seen'[..k + 1], did'[..k], limit) {
      if k < |did| {
        assert seen'[..k + 1] == seen[..k + 1] && did'[..k] == did[..k];
      } else {
        assert seen'[..k + 1] == seen' && did'[..k] == did;
      }
    }
  }

  lemma LawfulPrefix(seen: seq<Sighting>, did: seq<Action>, n: nat, limit: int)
    requires Lawful(seen, did, limit) && n <= |did|
    ensures Lawful(seen[..n], did[..n], limit)
  {
    hide Prescribed;
    forall k | 0 <= k < n ensures did[..n][k] == Prescribed(seen[..n][..k + 1], did[..n][..k], limit) {
      assert seen[..n][..k + 1] == seen[..k + 1] && did[..n][..k] == did[..k];
    }
  }

  lemma LawfulLast(seen: seq<Sighting>, did: seq<Action>, limit: int)
    requires Lawful(seen, did, limit) && did != []
    ensures var n := |did| - 1; did[n] == Prescribed(seen, did[..n], limit) && Lawful(seen[..n], did[..n], limit)
  {
    assert seen[..|did| - 1 + 1] == seen;
    LawfulPrefix(seen, did, |did| - 1, limit);
  }

  /** How the three readings of a history grow with one more sighting and decision. */
  lemma OneMore(seen: seq<Sighting>, did: seq<Action>, now: Sighting, act: Action)
    requires |seen| == |did|
    ensures var s, s' := Start(seen), Start(seen + [now]);
      && s' == (if now.limited then s else |seen| + 1)
      && (forall a :: Count(did + [act], s, a) == Count(did, s, a) + if act == a then 1 else 0)
      && (s < |seen| ==> Due(seen + [now], did, s) == Due(seen, did, s))
      && (Due(seen + [now], did + [act], s) ==
          if s == |seen| || act == Paste then now.now + now.backoff(Count(did + [act], s, Paste) + 1, now.retryAfter)
          else Due(seen, did, s))
  {
    assert (seen + [now])[..|seen|] == seen && (did + [act])[..|did|] == did;
    DueNext(seen, did, now, act, Start(seen));
  }

  lemma DueNext(seen: seq<Sighting>, did: seq<Action>, now: Sighting, act: Action, s: nat)
    requires s <= |seen| == |did|
    ensures s < |seen| ==> Due(seen + [now], did, s) == Due(seen, did, s)
    ensures Due(seen + [now], did + [act], s) ==
      if s == |seen| || act == Paste then now.now + now.backoff(Count(did + [act], s, Paste) + 1, now.retryAfter)
      else Due(seen, did, s)
  {
    assert (did + [act])[..|did|] == did;
  }

  /** What is prescribed next, in terms of those readings. */
  lemma WhatIsNext(seen: seq<Sighting>, did: seq<Action>, now: Sighting, limit: int)
    requires |seen| == |did|
    ensures var s := Start(seen);
      Prescribed(seen + [now], did, limit) == (
        if !now.limited then (if s < |seen| then Recovered else Noop)
        else if s == |seen| then Wait
        else if Count(did, s, GiveUp) > 0 then Noop
        else if now.now < Due(seen, did, s) then Wait
        else if Count(did, s, Paste) >= limit then GiveUp
        else Paste)
  {
    hide Due, Count;
    OneMore(seen, did, now, Noop);
  }

  // ---- The automaton ------------------------------------------------------------------------------------------

  class RateLimitResume {
    const limit: int

    var active: bool
    var since: int
    var attempts: int
    var nextPasteAt: int
    var gaveUp: bool

    ghost var seen: seq<Sighting>
    ghost var did: seq<Action>

    ghost predicate Valid()
      reads this
    {
      var s := Start(seen);
      && |seen| == |did| && Lawful(seen, did, limit)
      && (active <==> s < |seen|)
      && (active ==>
        && since == seen[s].now
        && attempts == Count(did, s, Paste)
        && (gaveUp <==> Count(did, s, GiveUp) > 0)
        && nextPasteAt == Due(seen, did, s))
    }

    constructor (limit: int)
      ensures Valid() && seen == [] && did == [] && this.limit == limit
    {
      this.limit := limit;
      active, since, attempts, nextPasteAt, gaveUp := false, 0, 0, 0, false;
      seen, did := [], [];
    }

    method Plan(now: Sighting) returns (act: Action)
      requires Valid()
      modifies this
      ensures Valid()
      ensures seen == old(seen) + [now] && did == old(did) + [act]
      ensures act == Prescribed(seen, old(did), limit)
    {
      hide Lawful, Start, Count, Due, Anchor, Prescribed;
      WhatIsNext(seen, did, now, limit);
      act := Noop;
      if !now.limited {
        if active {
          active, since, attempts, nextPasteAt, gaveUp := false, 0, 0, 0, false;
          act := Recovered;
        }
      } else if !active {
        active, since, attempts, gaveUp := true, now.now, 0, false;
        nextPasteAt := now.now + now.backoff(1, now.retryAfter);
        act := Wait;
      } else if gaveUp {
      } else if now.now < nextPasteAt {
        act := Wait;
      } else if attempts >= limit {
        gaveUp := true;
        act := GiveUp;
      } else {
        attempts := attempts + 1;
        nextPasteAt := now.now + now.backoff(attempts + 1, now.retryAfter);
        act := Paste;
      }
      OneMore(seen, did, now, act);
      LawfulStep(seen, did, now, act, limit);
      seen := seen + [now];
      did := did + [act];
    }

    /** A whole watch. */
    method Watch(sightings: seq<Sighting>) returns (acts: seq<Action>)
      requires Valid() && seen == [] && did == []
      modifies this
      ensures Valid() && Lawful(sightings, acts, limit)
    {
      hide Lawful, Prescribed, Start, Count, Due;
      acts := [];
      while |acts| < |sightings|
        invariant Valid() && |acts| <= |sightings| && seen == sightings[..|acts|] && did == acts
      {
        var act := Plan(sightings[|acts|]);
        acts := acts + [act];
      }
      assert sightings[..|acts|] == sightings;
    }
  }

  // ---- The laws of an episode -----------------------------------------------------------------------------------

  function Ceiling(limit: int): nat {
    if limit < 0 then 0 else limit
  }

  /** The waits in force since the episode opened at `s`: the opening one, and one after each paste. */
  function WaitsOwed(seen: seq<Sighting>, did: seq<Action>, s: nat): int
    requires s < |did| <= |seen|
    decreases |did|
  {
    var n := |did| - 1;
    if n == s then seen[s].backoff(1, seen[s].retryAfter)
    else WaitsOwed(seen, did[..n], s)
         + if did[n] == Paste then seen[n].backoff(Count(did, s, Paste) + 1, seen[n].retryAfter) else 0
  }

  /** At most `limit` pastes, at most one give-up and only after exactly that many pastes, no recovery while it
      lasts, and nothing due before its opening plus every wait so far. */
  ghost predicate Kept(seen: seq<Sighting>, did: seq<Action>, s: nat, limit: int)
    requires s < |did| <= |seen|
  {
    && Count(did, s, Paste) <= Ceiling(limit)
    && Count(did, s, GiveUp) <= 1
    && (Count(did, s, GiveUp) == 1 ==> Count(did, s, Paste) == Ceiling(limit))
    && Count(did, s, Recovered) == 0
    && Due(seen, did, s) >= seen[s].now + WaitsOwed(seen, did, s)
  }

  lemma EpisodeStep(seen: seq<Sighting>, did: seq<Action>, now: Sighting, act: Action, limit: int)
    requires |seen| == |did| && now.limited && act == Prescribed(seen + [now], did, limit)
    requires Start(seen) < |seen| ==> Kept(seen, did, Start(seen), limit)
    ensures Start(seen + [now]) == Start(seen) && Kept(seen + [now], did + [act], Start(seen), limit)
  {
    hide Start, Count, Due, Anchor;
    OneMore(seen, did, now, act);
    assert (did + [act])[..|did|] == did;
    if Start(seen) < |seen| { SameWaits(seen + [now], seen, did, Start(seen)); }
    else { NothingYet(did); }
  }

  lemma NothingYet(did: seq<Action>)
    ensures forall a :: Count(did, |did|, a) == 0
  {
  }

  /** Every moment of an episode, in every lawful history, keeps those bounds. */
  lemma {:induction false} EpisodeLaw(seen: seq<Sighting>, did: seq<Action>, limit: int)
    requires Lawful(seen, did, limit) && Start(seen) < |seen|
    ensures Kept(seen, did, Start(seen), limit)
  {
    hide Kept, Prescribed;
    var n := |did| - 1;
    LawfulLast(seen, did, limit);
    assert seen[..n] + [seen[n]] == seen && did[..n] + [did[n]] == did;
    if Start(seen[..n]) < n { EpisodeLaw(seen[..n], did[..n], limit); }
    EpisodeStep(seen[..n], did[..n], seen[n], did[n], limit);
  }

  /** Waits depend only on the sightings they look at. */
  lemma {:induction false} SameWaits(seen: seq<Sighting>, seen': seq<Sighting>, did: seq<Action>, s: nat)
    requires s < |did| <= |seen'| <= |seen| && seen[..|seen'|] == seen'
    ensures WaitsOwed(seen, did, s) == WaitsOwed(seen', did, s)
    decreases |did|
  {
    assert forall i | 0 <= i < |seen'| :: seen[i] == seen'[i];
    if s < |did| - 1 { SameWaits(seen, seen', did[..|did| - 1], s); }
  }

  /** Whenever a paste happens, the clock has passed the episode's opening plus all the waits before it; a give-up
      comes after exactly `limit` pastes. */
  lemma PastesArePatient(seen: seq<Sighting>, did: seq<Action>, n: nat, limit: int)
    requires Lawful(seen, did, limit) && n < |did| && did[n] in {Paste, GiveUp}
    ensures var s := Start(seen[..n + 1]);
      && s < n
      && seen[n].now >= seen[s].now + WaitsOwed(seen, did[..n], s)
      && Count(did[..n], s, GiveUp) == 0
      && (did[n] == GiveUp <==> Count(did[..n], s, Paste) == Ceiling(limit))
  {
    hide Prescribed, Due, Anchor, Start, Count;
    assert did[n] == Prescribed(seen[..n + 1], did[..n], limit);
    assert seen[..n] + [seen[n]] == seen[..n + 1];
    LawfulPrefix(seen, did, n, limit);
    PasteIsDue(seen[..n], did[..n], seen[n], did[n], limit);
    var s := Start(seen[..n]);
    SameWaits(seen, seen[..n], did[..n], s);
  }

  /** What a prescribed paste or give-up says of the history before it. */
  lemma PasteIsDue(seen: seq<Sighting>, did: seq<Action>, now: Sighting, act: Action, limit: int)
    requires |seen| == |did| && Lawful(seen, did, limit)
    requires act == Prescribed(seen + [now], did, limit) && act in {Paste, GiveUp}
    ensures var s := Start(seen);
      && s < |seen| && Start(seen + [now]) == s
      && now.now >= seen[s].now + WaitsOwed(seen, did, s)
      && Count(did, s, GiveUp) == 0
      && (act == GiveUp <==> Count(did, s, Paste) == Ceiling(limit))
  {
    hide Start, Count, Due, Anchor, Lawful, WaitsOwed;
    OneMore(seen, did, now, act);
    assert now.limited && Start(seen) < |seen|;
    EpisodeLaw(seen, did, limit);
  }

  function Where(did: seq<Action>, from: nat, to: nat, a: Action): set<nat> {
    set i: nat | from <= i < to && i < |did| && did[i] == a
  }

  /** The count is the number of such decisions. */
  lemma {:induction false} CountIsNumber(did: seq<Action>, from: nat, a: Action)
    requires from <= |did|
    ensures Count(did, from, a) == |Where(did, from, |did|, a)|
    decreases |did|
  {
    if from == |did| {
      assert Where(did, from, |did|, a) == {};
    } else {
      hide Where;
      CountIsNumber(did[..|did| - 1], from, a);
      WhereGrows(did, from, a);
    }
  }

  lemma WhereGrows(did: seq<Action>, from: nat, a: Action)
    requires from < |did|
    ensures var n := |did| - 1;
      |Where(did, from, |did|, a)| == |Where(did[..n], from, n, a)| + if did[n] == a then 1 else 0
  {
    var n := |did| - 1;
    var before, all := Where(did[..n], from, n, a), Where(did, from, |did|, a);
    forall i: nat ensures i in all <==> i in before || (i == n && did[n] == a) {
      if i < n { assert did[..n][i] == did[i]; }
    }
    Adds(before, n, all, did[n] == a);
  }

  lemma Adds(before: set<nat>, n: nat, all: set<nat>, more: bool)
    requires n !in before && forall i: nat :: i in all <==> i in before || (i == n && more)
    ensures |all| == |before| + if more then 1 else 0
  {
    assert all == before + if more then {n} else {};
  }

  /** Every decision of an episode, after its opening and until it is given up: measured from the last paste, or from
      the opening if there was none, the wait that the backoff then gave for the next attempt, with the hint then on
      the banner, must be over; then it is a paste if fewer than `limit` were made, and else the give-up. */
  lemma DecidedByTheClock(seen: seq<Sighting>, did: seq<Action>, n: nat, limit: int, k: nat)
    requires Lawful(seen, did, limit) && n < |did|
    requires var s := Start(seen[..n + 1]);
      && s <= k < n && (k == s || did[k] == Paste) && (forall i | k < i < n :: did[i] != Paste)
      && (forall i | s <= i < n :: did[i] != GiveUp)
    ensures var pastes := |Where(did, Start(seen[..n + 1]), n, Paste)|;
      did[n] == (
        if seen[n].now < seen[k].now + seen[k].backoff(pastes + 1, seen[k].retryAfter) then Wait
        else if pastes < limit then Paste
        else GiveUp)
  {
    hide Start, Count, Due, Anchor, Prescribed;
    var before, was, s := seen[..n], did[..n], Start(seen[..n + 1]);
    assert did[n] == Prescribed(seen[..n + 1], was, limit) && before + [seen[n]] == seen[..n + 1];
    LawfulPrefix(seen, did, n, limit);
    OneMore(before, was, seen[n], did[n]);
    WhatIsNext(before, was, seen[n], limit);
    CountIsNumber(was, s, Paste);
    assert Where(was, s, |was|, Paste) == Where(did, s, n, Paste);
    assert Count(was, s, GiveUp) == 0;
    AnchorIs(was, s, k);
    DueIs(before, was, s, k);
  }

  lemma {:induction false} AnchorIs(did: seq<Action>, s: nat, k: nat)
    requires s <= k < |did| && (k == s || did[k] == Paste) && forall i | k < i < |did| :: did[i] != Paste
    ensures Anchor(did, s) == k
  {
  }

  lemma DueIs(seen: seq<Sighting>, did: seq<Action>, s: nat, k: nat)
    requires s < |did| <= |seen| && Anchor(did, s) == k
    ensures Due(seen, did, s) == seen[k].now + seen[k].backoff(Count(did, s, Paste) + 1, seen[k].retryAfter)
  {
  }

  function EpisodesOpened(seen: seq<Sighting>): nat {
    if seen == [] then 0
    else
      var n := |seen| - 1;
      EpisodesOpened(seen[..n]) + if seen[n].limited && (n == 0 || !seen[n - 1].limited) then 1 else 0
  }

  /** Every episode that has ended was recovered from exactly once. */
  lemma {:induction false} OneRecoveryPerEpisode(seen: seq<Sighting>, did: seq<Action>, limit: int)
    requires Lawful(seen, did, limit)
    ensures Count(did, 0, Recovered) + (if seen != [] && seen[|seen| - 1].limited then 1 else 0) == EpisodesOpened(seen)
  {
    if seen != [] {
      var n := |did| - 1;
      assert seen[..n + 1] == seen;
      assert did[n] == Prescribed(seen, did[..n], limit);
      LawfulPrefix(seen, did, n, limit);
      OneRecoveryPerEpisode(seen[..n], did[..n], limit);
    }
  }
}
