/** What the delivery loop asks tmux, the discovery walker and the store's lookups, and what it may be told. All of
    it is adversarial: one `Round` is any combination of answers to one loop iteration, for every pane it may ask
    about. */
module Answers {
  import opened Bus
  import opened Wrappers

  predicate Yes(answer: Option<bool>) {
    answer.Some? && answer.value
  }

  predicate No(answer: Option<bool>) {
    answer.Some? && !answer.value
  }

  type Pane = string

  /** A question about a pane, and what came back. */
  datatype Asked<+A> = Asked(pane: Pane, answer: A)

  // ---- tmux ---------------------------------------------------------------------------------------------------

  datatype PaneState =
    | Working | Resting | AwaitingOperator | Unknown | AtRestInCompaction
    | InCopyMode | Errored | RateLimited | UsageLimited

  /** The content-corrupting states: no flag overrides these. */
  predicate PasteUnsafeForced(s: PaneState) {
    s == AwaitingOperator || s == Unknown || s == AtRestInCompaction || s == InCopyMode || s == Errored
  }

  predicate PasteUnsafe(s: PaneState) {
    PasteUnsafeForced(s) || s == RateLimited || s == UsageLimited
  }

  datatype Reading = Seen(state: PaneState) | PaneGone | ProbeFailed

  datatype GateAnswer =
    | Clear | MaxWaitExceeded | GateFailed | Cancelled
    | SawUsageLimit | SawRateLimit(hint: int) | CopyModePersisted | CopyModeUnreadable

  datatype PasteResult =
    | Pasted | SubmittedExternally | Unverified | Unsupported
    | InputRaced | PriorPasteStuck | PaneMissing | HardError

  /** What a paste into a pane can come back with. */
  type TmuxResult = r: PasteResult | r != Unsupported witness Pasted

  // ---- discovery ----------------------------------------------------------------------------------------------

  datatype SessionAnswer = SessionLookupFailed | NotHosted | HostedIn(pane: Pane)
  datatype NameAnswer = NameProbeFailed | NameAmbiguous | Nobody | ThisAgent | AnotherAgent
  datatype LookupAnswer = LookupFailed | LookupAmbiguous | Nowhere | FoundIn(pane: Pane)
  datatype PriorAnswer = NoPrior | PriorUnreadable | PriorGone | PriorVisible(original: RowId)

  /** The agent row as read at the head of the iteration. */
  datatype Registration = Registration(pane: Pane, session: bool, paused: bool)

  datatype Sweep = NotDue | SweepFailed | Drained | Moving | Stale(held: bool)

  datatype Round = Round(
    stopAtHead: bool,                      // the stop signal is already up
    stopAtSleep: bool,                     // it comes up during the iteration's closing wait
    registration: Option<Registration>,
    sweep: Sweep,
    selfCompacted: bool,
    pick: RowId,                           // the scheduler's choice, if that row is claimable
    pingHealthy: Pane -> bool,
    providerSaturated: bool,
    session: SessionAnswer,
    sessionHeal: bool,                     // the registry write succeeds
    staleProbe: Pane -> Reading,
    name: Pane -> NameAnswer,
    lookup: LookupAnswer,
    nameHeal: bool,
    acceptsPaste: Pane -> bool,
    prior: Option<RowId>,                  // a candidate for the dedupe query
    priorVisible: Pane -> Option<bool>,    // None: the scrollback check failed
    gate: Pane -> GateAnswer,
    stale: Pane -> bool,                   // the gate's reading of the input row
    input: Pane -> string,
    reread: Pane -> Option<string>,        // None: the re-read failed
    spread: nat,                           // wake jitter and cap-aware extension
    probe: Pane -> Reading,
    supported: bool,                       // the adapter implements this control command
    first: Pane -> TmuxResult,
    healLookup: LookupAnswer,
    healWrite: bool,
    second: Pane -> TmuxResult,
    stopAtSettle: bool,                    // the stop signal comes up while a session reset settles
    before: seq<Event>,                    // what everyone else does before the agent row is read
    peers: nat -> seq<Event>)              // and after this mailman's n-th transaction

  // ---- configuration ------------------------------------------------------------------------------------------

  datatype Options = Options(
    agent: Agent,
    providerCap: bool,
    driftCheck: bool,
    driftSoftFail: bool,
    dedupe: bool,
    gate: bool,
    prePasteSafety: bool,
    notifyOnFailed: bool,
    notifyOnInputBox: bool,
    postCompactPause: bool,
    stuckThreshold: int,
    staleThreshold: int,
    conductor: Option<Agent>)       // freshness alerts, when enabled

  // ---- the record of one iteration ----------------------------------------------------------------------------

  /** The questions that settle where a claimed row may go, with their answers; None means not asked. */
  datatype Routing = Routing(
    saturated: Option<bool>,
    session: Option<SessionAnswer>,
    sessionHeal: Option<bool>,
    staleProbe: Option<Asked<Reading>>,
    staleRun: nat,
    name: Option<Asked<NameAnswer>>,
    lookup: Option<LookupAnswer>,
    nameHeal: Option<bool>,
    accepts: Option<Asked<bool>>)

  /** Everything an iteration asked about its claimed row, pastes included, and in which panes. */
  datatype Dossier = Dossier(
    routing: Routing,
    prior: Option<Asked<PriorAnswer>>,
    gate: Option<Asked<GateAnswer>>,
    throttleRun: nat,
    spread: nat,
    archived: Option<string>,
    probe: Option<Asked<Reading>>,
    missRun: nat,
    first: Option<Asked<TmuxResult>>,
    healLookup: Option<LookupAnswer>,
    healWrite: Option<bool>,
    retry: Option<Asked<TmuxResult>>,
    settleStop: Option<bool>)

  const NOWHERE_YET := Routing(None, None, None, None, 0, None, None, None, None)

  function Unopened(routing: Routing): Dossier {
    Dossier(routing, None, None, 0, 0, None, None, 0, None, None, None, None, None)
  }

  // ---- session resets -----------------------------------------------------------------------------------------

  /** White space in ASCII and Latin-1. */
  predicate IsSpace(c: char) {
    c in {' ', '\t', '\n', '\r', '\U{000B}', '\U{000C}', '\U{0085}', '\U{00A0}'}
  }

  function TrimSpace(s: string): string {
    if s == "" then ""
    else if IsSpace(s[0]) then TrimSpace(s[1..])
    else if IsSpace(s[|s| - 1]) then TrimSpace(s[..|s| - 1])
    else s
  }

  /** A bare /compact or /clear: the pane will redraw, and rows staged for resume are due. */
  predicate IsSessionReset(msg: Row) {
    msg.kind == Control && (TrimSpace(msg.body) == "/compact" || TrimSpace(msg.body) == "/clear")
  }

  datatype Block = NoLiveSession | Drift | NotLive

  datatype Ending =
    | Pinged(healthy: bool)
    | CapDeferred
    | StaleDeferred
    | StaleParked
    | Blocked(why: Block)
    | Absorbed(original: RowId)
    | GateStopped
    | GateDeferred(saw: GateAnswer, pause: int)
    | ProbeDeferred
    | PaneDeferred(pause: int)
    | PaneParked
    | Attempted(result: PasteResult)
    | ResetInterrupted
}
