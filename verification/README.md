# Verification model of the tmux-tell message bus

tmux-tell lets agents in tmux panes send each other messages. A SQLite table holds the messages; one *mailman* daemon
per recipient claims queued rows, takes each past a row of guards, pastes it into the recipient's pane and marks it.
This project models that delivery protocol and the automata around it in Dafny, and proves what every interleaving
and every answer of tmux, discovery and the operator leaves true.

| file | what it models |
|---|---|
| `Bus.dfy`, `BusLaws.dfy` | the message table and all mailmen as one protocol, one event per store write; its invariants over every run |
| `NoticeBudget.dfy` | how much work notices about deliveries can cause |
| `Streaks.dfy` | the 64-bit clamped-shift backoff, streaks and parking |
| `Answers.dfy`, `Verdicts.dfy` | everything an iteration asks, and which answers justify which ending |
| `GuardLaws.dfy` | which answers, by name, force each ending, and what a paste has behind it |
| `Turns.dfy` | what a turn of the loop may come to, what it writes and leaves on record |
| `Mailman.dfy` | the daemon: `SharedBus` is the table, `Mailman` the loop with its counters and latches |
| `TurnLaws.dfy` | what the records of a run imply: parking, waits, the notice cycle turn by turn |
| `Aftermath.dfy` | what one turn leaves in the table, row by row, for every ending |
| `Resume.dfy` | the automaton that resumes a throttled agent |
| `Budget.dfy`, `Ledger.dfy` | the communication budget: refill, price, and the stored balance |
| `Fanout.dfy` | the per-pool stagger and the loop that consumes it |
| `Digest.dfy` | reply threads and the digest's counts |
| `Migration.dfy` | renaming and removing config sections by editing lines |
| `Flags.dfy` | flags first, against the rules of Go's `flag` package |
| `Observer.dfy` | the dead-mailman observer |
| `Wrappers.dfy` | an option type |

`dafny verify dfyconfig.toml` checks all of it.

## How the loop and the protocol meet

`Bus.Enabled` and `Bus.Next` say what one store write needs and does. `Mailman.Act` is the only way the daemon
writes: it must show its event enabled. Before every turn, also of a paused or parked mailman, and after each of its
transactions an arbitrary list of other parties' events happens, a `register --force` among them. `SharedBus` carries
that its table is where its log leads from the opening table (`Traced`), so the laws of `BusLaws` and `NoticeBudget`,
proved of all event sequences, hold of what daemons have written so far; `Serve` states the ones that matter most.

Each iteration returns a *dossier* of the questions it asked, about which pane, with the answers it got; `Explains`
says which ending a dossier forces and which pane each question must be about. A `Round` holds what the world answers
in one turn, as functions of the pane where the question names one; `Recorded` ties the dossier to them, and the three
streak histories are read off the dossiers alone (`FindingsAfter`). `GuardLaws` says the same of plain answers, and
`TurnOnTheTable` what a turn does to the rows; by `Iterate`, that is what the table holds when nobody else acts.

## What turned out otherwise than the comments say

- A failed registry write after discovery finds the session in another pane leaves the old pane in use with the
  drift check and the bare-shell gate skipped (`internal/cli/serve.go:1726-1749`; `LostHealPastesUngated` is a case).
  `FirstPasteIsGated` holds exactly outside it, and `FailLoudRouting` exactly outside failed registry writes and
  errors of discovery.
- Stranded drafts and failure notices form a cycle the kind guards do not cut (`DraftsAndNoticesCycle`, and
  `TurnsCycle` for turns of the daemon).
- Both backoffs are 0 for 56 to 63 consecutive failures (`internal/cli/serve.go:195`): 10^9 = 2^9 * 5^9 shifted by 55
  or more leaves the 64-bit word. `BackoffExactly` gives the range.
- A stop signal during the settle wait after a session reset exits before the rows staged for resume are promoted
  (`internal/cli/serve.go:2542-2546`). `ResetReleasesStagedRows` holds exactly outside that.
- A refund restores the balance of the moment of the charge and loses the refill since; `RefundForgetsRefill` says
  exactly when nothing is lost. A store error in the middle of a fan-out keeps the whole charge, even if nothing
  landed (`RunMultiSend`).
- The stagger's bound may fail for releases across pools or with slow inserts (`MixedPoolsBunch`, `SlowInsertsBunch`).
  It holds when the inserts fit between the offsets, and exactly under the spacing of `BoundExactlyWhenSpread`.
- A header spread over lines is found by the whole-text search and missed by both edits (`SpreadHeaderNeverSettles`);
  the text is stable all the same (`MigrationIsIdempotent`). A second migration reports nothing exactly when no such
  header is left (`SecondVerdict`), which renaming does not change.
- A value-less flag at the end swallows the first positional, and `--` is dropped; `ReorderingIsFaithful` gives the
  exact condition. Reordering twice may differ from once (`TerminatorIsLost`), exactly as `ReorderTwiceExactly` says.

## Model

| member | source | states |
|---|---|---|
| `BusLaws.CoherentNext` | internal/cli/serve.go:1090-2747 | Every store write of every mailman, sender and operator command keeps the protocol invariant: a delivering row is in its own mailman's hand or its mailman is down, a hand holds a row of its own, and a landed text belongs to a closed or still-held row |
| `BusLaws.RunsAreSingleFlight` | internal/cli/serve.go:1090-1094 | From any table (rows a crash left delivering included), after any interleaving of any number of mailmen, starts, stops, inserts, acknowledgements, reaps and deletes: no row of an agent whose mailman stands at a loop head is delivering, and inside an iteration only the claimed row is |
| `BusLaws.RequeueRevertsOneRow` | internal/cli/serve.go:2403-2412 | The batch revert in a deferral branch writes exactly what a single-row update of the claimed row would, and nothing if that row was deleted meanwhile |
| `BusLaws.RunsLandAtMostOnce` | internal/cli/serve.go:2477-2747 | Across any stops and restarts each row's text reaches a pane at most once, a landed row is never queued or deferred again, and is in a final state once out of hand |
| `BusLaws.RowMovesLegally` | internal/store/messages.go:755-860 | No event changes a row's sender, recipient, kind or body; the only state changes are the listed ones, and only the recipient's own mailman moves a row into or out of delivering |
| `BusLaws.FinalForever` | internal/store/messages.go:783-815 | A delivered, failed, acknowledged, refused or deleted row stays final with the same content in every run |
| `BusLaws.ParkedMailmanClaimsNothing` | internal/cli/serve.go:1461-1466 | A parked mailman claims nothing in any run until somebody un-parks it |
| `BusLaws.ParkedExactly` | internal/store/agents.go:654-683 | At the end of every run an agent is parked exactly when its mailman parked it, or it was parked to begin with, and nobody registered it by force since |
| `BusLaws.ParkStopsClaims` | internal/cli/serve.go:2427-2442 | From a park on, and until somebody registers the agent by force, it stays parked and its mailman claims nothing |
| `BusLaws.RowsAdded` | internal/store/messages.go:1070-1097 | Row by row what each store write changes, and the sender, recipient, kind, body and state of the row that a send, a notice, an archived draft or an alert adds; nothing else adds one |
| `NoticeBudget.TerminalOutcomesAreBounded` | internal/cli/serve.go:2775-2806 | In every run of the whole bus, terminal outcomes plus the weighted work left (message 3, failure notice and ping 1, others 2) are at most the weighted work at the start plus what senders, archived drafts and freshness alerts put on the bus: notices about deliveries cannot feed themselves |
| `NoticeBudget.MailmanStepPaysItsWay` | internal/cli/serve.go:2477-2747 | Each claim, requeue, stop and terminal mark pays for itself: the weight drops by at least one at each terminal mark, also when the row was deleted under the mailman |
| `NoticeBudget.DraftBecomesNotice` | internal/cli/serve.go:2723-2730 | A stranded draft whose delivery fails puts a failure notice addressed to the same agent in its place |
| `NoticeBudget.NoticeBecomesDraft` | internal/cli/serve.go:2295-2354 | Delivering that failure notice over an operator's text puts the next stranded draft in its place |
| `NoticeBudget.DraftsAndNoticesCycle` | internal/cli/serve.go:2295-2330 | For every n there is a run with 2n terminal outcomes and no send and no alert: the kind guards leave the draft and failure-notice cycle open, so the bound above needs the archived drafts in its account |
| `Streaks.BackoffExactly` | internal/cli/serve.go:187-220 | With 64-bit wrap-around both backoffs equal min(2^(n-1) s, 60 s) for every n >= 1 except 56..63, where the shifted word is 0 and the wait is 0 |
| `Streaks.BackoffNeverShrinks` | internal/cli/serve.go:187-202 | On 1..55 the backoff is at least one second and never decreases |
| `Streaks.TrailingRunIsMaximal` | internal/cli/serve.go:2420-2456 | The run length the counters are compared with is that of the longest suffix of misses of one message |
| `Streaks.CountMiss` | internal/cli/serve.go:2420-2442 | Counting up under the same message id, from one under a new id, and over again at the threshold tracks the run length of the history modulo the threshold; parking happens exactly when the run length is a positive multiple of it |
| `Streaks.FreshRunParksAtThreshold` | internal/cli/serve.go:2420-2456 | A fresh run of misses of one message parks on its N-th miss and on no earlier one, after waits of backoff(1) + ... + backoff(N-1) |
| `Verdicts.EndingIsDetermined` | internal/cli/serve.go:1652-2747 | The answers of one iteration (a dossier of every question asked) justify one ending only |
| `Verdicts.FirstPasteIsGated` | internal/cli/serve.go:1711-1749 | With drift check and pre-paste safety on, the very pane of the first paste had a paste-safe last reading (the narrower test for forced rows), and that same pane hosts the session or was asked and accepted, exactly unless the registry write after a session hit elsewhere failed |
| `Verdicts.FailLoudRouting` | internal/cli/serve.go:1833-1958 | Without the soft-fail option the pane of the first paste hosts the session, was itself resolved as this agent, or is the one the lookup named, exactly unless a discovery call errored or a registry write failed |
| `Verdicts.LostHealPastesUngated` | internal/cli/serve.go:1726-1749 | The case left open happens: with every guard on, a session found in one pane and a failed registry write, the text goes to another pane that no name check and no acceptance check was asked about and discovery does not vouch for |
| `Verdicts.ParksOnVanishedPane` | internal/cli/serve.go:2420-2456 | An iteration parks on a vanished pane exactly when its probe found the pane gone and the run of such findings is a positive multiple of the threshold, and otherwise waits the streak's backoff |
| `Verdicts.RetryFollowsVanishedPane` | internal/cli/serve.go:2481-2503 | A second paste only follows a vanished pane, and its recorded pane is the one the lookup named and not the pane of the first |
| `GuardLaws.LastReadingDecides` | internal/cli/serve.go:2388-2456 | By reading: a pane found gone counts towards parking; a failed probe, one of the five corrupting states, or a provider limit on an unforced row puts the row back; working or resting, or a limit on a forced row, lets it through |
| `GuardLaws.GateDecides` | internal/cli/serve.go:2044-2294 | By answer: a cancelled gate leaves the row in flight, copy mode or a provider limit on an unforced row puts it back, clear, waited out or failed lets it through |
| `GuardLaws.ThrottledRowWaits` | internal/cli/serve.go:2154-2219 | A throttled row waits the hint on the banner, or else the backoff of its run, plus the spread; other gate deferrals carry no wait |
| `GuardLaws.NamesBlock` | internal/cli/serve.go:1833-1999 | By answer: an empty pane blocks unless the agent is found elsewhere, under soft-fail too; an ambiguous name or another agent blocks only without soft-fail; a pane that takes no text blocks |
| `GuardLaws.EarlyAnswersDecide` | internal/cli/serve.go:1652-1815 | By answer: a saturated provider defers, a session hosted nowhere over an unclassifiable pane defers or parks, and a visible copy absorbs, each exactly then |
| `GuardLaws.PasteHasItsAnswers` | internal/cli/serve.go:1652-2457 | Before a first paste every guard that is on was asked, in the pane pasted to where it asks about one, and gave a passing answer by name |
| `GuardLaws.PaneMovesByHealsOnly` | internal/cli/serve.go:1711-1958 | The first paste goes to the registered pane, or after a registry write that succeeded to the pane discovery named; writes are tried exactly when that is another pane |
| `GuardLaws.LastPasteIsReported` | internal/cli/serve.go:2477-2503 | The result reported is that of the last paste; a second one happens exactly when the pane vanished, the agent was found in another and that was written |
| `GuardLaws.SettleWaitFollowsResets` | internal/cli/serve.go:2535-2546 | A settle wait follows exactly a pasted session reset with the pause configured, and a stop in it is the one way to be interrupted |
| `GuardLaws.ResetsAreBareCommands` | internal/cli/serve.go:3184-3190 | A session reset is a control row whose body is /compact or /clear and white space around it, and no other row is one |
| `Mailmen.SharedBus.Post` | internal/cli/serve.go:1604-1613 | One transaction on the shared table: possible in the protocol, applied as the protocol says, logged; the table stays where the log leads from the opening table |
| `Mailmen.SharedBus.SoFar` | internal/cli/serve.go:1090-1094 | Whatever daemons have written so far: nothing is delivering outside an iteration, no text has landed twice, and terminal outcomes are within the account of work put on the bus |
| `Mailmen.OthersUnpark` | internal/store/agents.go:654-683 | Other parties never park an agent, and clear it exactly when one of them registers it by force |
| `Mailmen.SharedBus.Interfere` | internal/store/messages.go:1070-1097 | Whatever the others do before a turn or between two transactions of a mailman leaves its desk and its own log alone and cannot park it |
| `Mailmen.Mailman.constructor` | internal/cli/serve.go:1219-1265 | A fresh daemon starts with empty streaks and counters that fit the empty histories |
| `Mailmen.Mailman.LookUpSession` | internal/cli/serve.go:1711-1749 | The session lookup is asked exactly when it should be, and a heal is written exactly when the session lives in another pane |
| `Mailmen.Mailman.CheckName` | internal/cli/serve.go:1833-1958 | Another agent in the pane or an ambiguous name blocks the row unless soft-fail is on or the lookup finds or fails; nobody in the pane blocks it unless the lookup finds the agent; the pane moves only by a registry write that succeeded |
| `Mailmen.Mailman.CheckTarget` | internal/cli/serve.go:1833-1999 | The drift guard and the bare-shell gate together: the guard is about the pane the session path left, the gate about the pane settled on, and no block means every routing guard passed |
| `Mailmen.Mailman.CountPaneMiss` | internal/cli/serve.go:2420-2442 | Parks exactly when the run of pane-not-found probes of one message is a positive multiple of the threshold; otherwise waits the backoff of the streak |
| `Mailmen.Mailman.CountStaleSession` | internal/cli/serve.go:1785-1798 | Parks exactly when the run of stale-session answers is a multiple of its threshold |
| `Mailmen.Mailman.CountRateLimit` | internal/cli/serve.go:2154-2219 | The throttle counter is the length of the run of throttled gate readings of one message |
| `Mailmen.Mailman.CheckStaleSession` | internal/cli/serve.go:1760-1815 | A session hosted nowhere over a fallback pane that cannot be classified requeues the row and parks at the threshold; a hosted session or a readable pane breaks the streak, and a check that is off leaves it |
| `Mailmen.Mailman.CheckPriorDelivery` | internal/cli/serve.go:2001-2042 | A copy visible in the settled pane confirms the original, fails the replay and owes a dedupe notice only for a plain message; every other answer lets the row pass |
| `Mailmen.Mailman.ObserveGate` | internal/cli/serve.go:2044-2354 | The gate watches the settled pane: cancelled it leaves the row to recovery and exits, a throttled, exhausted or scrolled pane requeues it, a forced row passes the limits, and a draft is archived only on the way to the paste |
| `Mailmen.Mailman.ArchiveStaleInput` | internal/cli/serve.go:2295-2353 | Archives the fresh input, or the gate's snapshot when the re-read failed, and nothing when the input is empty now or the row is itself a stranded draft |
| `Mailmen.Mailman.ProbeBeforePaste` | internal/cli/serve.go:2371-2457 | The last reading is of the pane about to be pasted: gone counts towards parking, any other unsafe reading requeues without counting, and only a safe one passes |
| `Mailmen.Mailman.PasteAndHeal` | internal/cli/serve.go:2477-2503 | One paste in the settled pane, and after a vanished pane a lookup, a registry write and at most one more paste, in the pane found |
| `Mailmen.Mailman.MarkOutcome` | internal/cli/serve.go:2520-2731 | Each delivery result writes exactly the transactions its class owes: landing, terminal mark, notice, revert or resume promotion |
| `Mailmen.Mailman.HandlePing` | internal/cli/serve.go:2977-2990 | A ping is marked delivered or failed and never touches a pane |
| `Mailmen.Mailman.MaybeInsertFailureNotice` | internal/cli/serve.go:2775-2806 | One notice to the sender when enabled, and none about a failure notice |
| `Mailmen.Mailman.Route` | internal/cli/serve.go:1652-1999 | From the claim to the settled pane: the row is deferred, parked, blocked or routed, each with the answers that force it |
| `Mailmen.Mailman.Handle` | internal/cli/serve.go:1640-2747 | A claimed row ends in the one ending its answers force, with exactly the transactions that ending owes |
| `Mailmen.Mailman.WaitForGate` | internal/cli/serve.go:2001-2354 | Dedupe and gate together either end the iteration or pass with every guard so far recorded as passed |
| `Mailmen.Mailman.PasteWhenSafe` | internal/cli/serve.go:2001-2731 | From the settled pane to the ending: the dossier explains it, holds the oracle's answers, and carries the true run lengths |
| `Mailmen.Mailman.SweepFreshness` | internal/cli/serve.go:1521-1560 | An alert is sent exactly when the queue is stale, nothing holds it legitimately and the latch is off; draining or moving re-arms |
| `Mailmen.Mailman.ClaimNext` | internal/store/messages.go:671-753 | A claim takes one queued row of this agent, moves it to delivering and returns its content, or finds nothing |
| `Mailmen.Mailman.TakeRow` | internal/cli/serve.go:1604-2747 | One claim seen through, and the closing wait in which a stop may come |
| `Mailmen.Mailman.Turn` | internal/cli/serve.go:1512-2747 | Sweep, promotion, claim and delivery write exactly the listed transactions in order |
| `Mailmen.Mailman.Iterate` | internal/cli/serve.go:1395-2747 | One turn of the loop for any answers and any interference before and during it: it sweeps exactly when the agent is registered, unpaused and not parked or just un-parked, handles the picked row exactly when that is claimable, writes the specified transactions, starts its streaks afresh after parking, leaves the agent parked exactly after a parking ending that nobody undid at once, takes the table where its own transactions lead when nobody else acts, and leaves the desk idle or, exactly when it stops, down; an idle turn changes nothing itself |
| `Mailmen.Mailman.Loop` | internal/cli/serve.go:1395-2747 | Over any number of turns nothing of this agent is delivering at any loop head, the log of own transactions is the script of the outcomes, every turn leaves a dossier of true answers that forces its ending, and exactly the ready turns that find the agent not parked, or just registered by force, sweep: a turn that parks leaves it parked unless that happens at once |
| `Mailmen.Mailman.Serve` | internal/cli/serve.go:1079-1100 | Recovery runs before the delivery-mode exits; after any number of turns the streaks are below their thresholds, every turn is on record, no text has landed twice and terminal outcomes are within their account |
| `Turns.OneAlertPerFreeze` | internal/cli/serve.go:1521-1560 | Between two freshness alerts of one mailman some sweep saw the queue drained or moving |
| `Turns.ResetReleasesStagedRows` | internal/cli/serve.go:2535-2604 | A landed session reset promotes the rows staged for resume in its own turn, exactly unless the stop came in the settle wait; then the turn ends with the exit |
| `Turns.AlertsExactly` | internal/cli/serve.go:1521-1560 | A turn alerts the conductor exactly when its sweep found the queue stale and unheld and no alert is out: none since the queue was last seen drained or moving |
| `Turns.SelfCompactionReleasesFirst` | internal/cli/serve.go:1590-1602 | A turn that sees a self-compaction promotes the staged rows before it claims anything, and only then |
| `Aftermath.TurnOnTheTable` | internal/cli/serve.go:2520-2731 | A turn in which nobody else acts, on the table: the claimed row ends queued, failed, delivered or delivered unverified as its ending says, result by result; exactly the archived draft and the owed notice to the sender are added; an absorbing original is confirmed, staged rows are queued after a reset; the agent is parked, the text landed and the process down exactly when the ending says so |
| `TurnLaws.LoopParksAtThreshold` | internal/cli/serve.go:2420-2456 | In any run of the loop a turn parks on a vanished pane exactly when the probe findings of all turns so far end in a run for one row whose length is a positive multiple of the threshold; short of that it waits the backoff of the streak |
| `TurnLaws.LoopCountsStreaks` | internal/cli/serve.go:1785-1798 | Likewise for stale sessions; and a throttled row without a hint waits the backoff of its run of throttled readings plus the spread |
| `TurnLaws.LoopParksAfterItsBackoffs` | internal/cli/serve.go:2420-2456 | A fresh run of vanished-pane findings for one row, over any turns of the loop, parks on its N-th and on no earlier one, and the pauses of those turns add up to backoff(1) + ... + backoff(N-1) |
| `TurnLaws.ParkedUntilRegistered` | internal/cli/serve.go:1452-1466 | After a turn that parks, the next turn to sweep is the first ready one that follows a forced registration |
| `TurnLaws.VanishedPanesInARow` | internal/cli/serve.go:2420-2442 | The run that parks grows by one from probe to probe of one row whose pane stays gone, over any turns in between, and begins anew after any other row or reading |
| `TurnLaws.StaleSessionsInARow` | internal/cli/serve.go:1785-1815 | Likewise the run of stale sessions, over the turns that look a session up |
| `TurnLaws.ThrottlesInARow` | internal/cli/serve.go:2154-2230 | Likewise the run of throttled readings, over the turns that claim: another row, or a gate that lets the row through, begins it anew |
| `TurnLaws.ArchivesWhatWasTyped` | internal/cli/serve.go:2295-2353 | Past the gate, and only there, stale input is archived: the fresh reading, or the snapshot if that failed; nothing if either was empty or the row is a stranded draft |
| `TurnLaws.StopsInTheClosingWait` | internal/cli/serve.go:2733-2747 | A stop in the closing wait ends the loop; turns that parked, put a row back on the last reading, or left already have none |
| `TurnLaws.TurnsCycle` | internal/cli/serve.go:2295-2330 | For every n and any options that archive drafts and report failures there are 2n turns of the daemon, each explained by its dossier, whose transactions form a run with 2n terminal outcomes: the draft and failure-notice cycle is the daemon's own |
| `Resume.RateLimitResume.Plan` | internal/cli/serve.go:377-411 | The running fields decide exactly what the history of sightings and decisions prescribes |
| `Resume.RateLimitResume.Watch` | internal/cli/serve.go:421-455 | Over any sequence of sightings, each with its own clock reading and its own draw of the backoff, the decisions are lawful |
| `Resume.EpisodeLaw` | internal/cli/serve.go:340-411 | In every lawful history an episode has at most the ceiling of pastes, at most one give-up and that only at exactly the ceiling, no recovery while it lasts, and nothing due before its opening plus every wait in force so far; for any clock and any backoff, drawn anew at every sighting |
| `Resume.PastesArePatient` | internal/cli/serve.go:395-410 | When a paste or a give-up happens the clock has passed the episode's opening plus the sum of all waits before it, and it is a give-up exactly at the ceiling |
| `Resume.DecidedByTheClock` | internal/cli/serve.go:398-410 | Each decision of a running episode, exactly: wait until the backoff given at the last paste or the opening, for the next attempt and the hint then on the banner, is over; then paste while fewer than the ceiling were made, else give up |
| `Resume.OneRecoveryPerEpisode` | internal/cli/serve.go:377-384 | Recoveries count exactly the episodes that have ended |
| `Budget.RefillIsALine` | internal/budget/refill.go:83-101 | The two-speed refill is one straight line when debt is counted double: the exact zero crossing and the cap included |
| `Budget.RefillIsAFlow` | internal/budget/refill.go:79-101 | Refilling in two steps is refilling once for the sum |
| `Budget.TouchesDoNotMatter` | internal/budget/refill.go:79-101 | Refilling at any list of touch points agrees with refilling once |
| `Budget.RefillIsMonotone` | internal/budget/refill.go:83-101 | More balance or more time never gives less, never more than the cap, and refilling never loses |
| `Budget.AffordableExactlyFrom` | internal/budget/refill.go:106-120 | A wait makes a send affordable exactly when the need fits the capacity and the wait is at least the closed-form least one |
| `Budget.QuotedWait` | internal/budget/refill.go:122-138 | The quoted wait is at least the least one and under twice it, equal to it exactly when the balance or the need has the sign that leaves no debt leg ahead of a positive need, and it suffices exactly when any wait does |
| `Budget.ZeroQuote` | internal/store/budget.go:216-227 | A quote of zero means affordable now or never at all |
| `Budget.BreadthIsConvex` | internal/budget/cost.go:22-28 | Each further new recipient costs strictly more than the one before |
| `Budget.BreadthGrows` | internal/budget/cost.go:22-28 | The breadth term strictly grows, and is zero for nobody |
| `Budget.BillIsNeutral` | internal/budget/cost.go:30-75 | Any sequence of sends inside one window, at one body length, costs the growth of the window plus alpha per delivery, times the length factor |
| `Budget.CostOfOne` | internal/budget/cost.go:67-75 | The guard against a negative marginal breadth never acts when the window only grows |
| `Budget.SplittingIsNeutral` | internal/budget/cost.go:38-48 | Sends with the same deliveries in any grouping and order cost the same |
| `Ledger.DeliveriesJoinTheWindow` | internal/store/budget.go:157-197 | While nothing leaves the window, delivered recipients are exactly what the window gains |
| `Ledger.WindowForgets` | internal/store/budget.go:171-174 | What was refused, or sent at or before the far end of the window, is as if never sent, for the window and for the price of any sends |
| `Ledger.OldFriendsAreCheaper` | internal/store/budget.go:157-197 | One more message to somebody addressed inside the window costs its volume alone; to anybody else a full step of breadth on top, strictly more |
| `Ledger.DebtIsAQuarter` | internal/budget/refill.go:103-120 | A new sender may spend a quarter more than the capacity at once, and any balance may fall a quarter of the capacity below zero, exactly |
| `Ledger.Account.QuoteBudget` | internal/store/budget.go:130-214 | The quote is the refilled balance, the price of the recipients new to the window plus the volume, the charge's verdict, and a wait that is what is missing at the present speed, at least the least one and under twice it |
| `Ledger.Account.ChargeBudget` | internal/store/budget.go:75-121 | An admitted charge writes the quoted remainder and the time, a refused one writes nothing; the balance stays between floor and capacity |
| `Ledger.Account.RefundBudget` | internal/store/budget.go:239-291 | A refund adds to the stored balance up to the capacity and stamps the time; none for an unknown sender or a non-positive amount |
| `Ledger.SpendingIsBounded` | internal/budget/refill.go:103-120 | Over any run of charges and refunds the balance stays between floor and capacity, and what was admitted and kept is at most the opening balance above the floor plus rate times elapsed time |
| `Ledger.RefundForgetsRefill` | internal/store/budget.go:281-290 | Charging and refunding the same amount leaves the balance of the moment of the charge; it equals the untouched account exactly when that balance was full, refill is off or no time passed |
| `Fanout.StaggerOffsets` | internal/cli/fanoutthrottle.go:123-147 | Each recipient's offset is that of its rank among the earlier recipients of its pool |
| `Fanout.PoolsAreIndependent` | internal/cli/fanoutthrottle.go:108-122 | A recipient's offset is the one it has when its pool is fanned out alone |
| `Fanout.OffsetsGrowInPool` | internal/cli/fanoutthrottle.go:123-147 | Offsets never decrease inside a pool |
| `Fanout.OffsetFigures` | internal/cli/fanoutthrottle.go:59-104 | The offsets by provider in figures: five at once and 400 ms apart for Anthropic, two and 1.5 s for OpenAI, none for Ollama, one and 1.5 s for any other or none, capped at 10 s |
| `Fanout.NamelessIsUnknown` | internal/cli/fanoutthrottle.go:86-91 | Recipients without a provider share a pool with those of the provider unknown |
| `Fanout.IntervalBound` | internal/cli/fanoutthrottle.go:108-122 | Below the cap no interval of length L holds more than threshold - 1 + ceil(L/delay) of a throttled pool |
| `Fanout.RunMultiSend` | internal/cli/send.go:459-520 | Each recipient is released at the later of its offset and the end of the insert before it; the call is ok exactly when every insert landed, refunds exactly when something was charged and none landed, and aborts exactly at the first store error, keeping the charge |
| `Fanout.ReleasesArePrefixMaxima` | internal/cli/fanoutthrottle.go:165-179 | Nobody is released early, and with instantaneous inserts everybody is released at the largest offset so far |
| `Fanout.TotalIsTheSlowestPool` | internal/cli/fanoutthrottle.go:114-117 | With instantaneous inserts the whole fan-out lasts as long as its slowest pool alone |
| `Fanout.ReleasesKeepOffsets` | internal/cli/send.go:464-494 | Releases are the offsets exactly when every insert ends before the next recipient's offset |
| `Fanout.FittingInsertsKeepTheBound` | internal/cli/send.go:464-494 | When every insert ends before the next offset, the releases of every throttled pool keep the interval bound, mixed fan-outs included |
| `Fanout.OnePoolKeepsTheBound` | internal/cli/fanoutthrottle.go:108-122 | For one pool with instantaneous inserts the interval bound holds of the releases |
| `Fanout.BoundExactlyWhenSpread` | internal/cli/fanoutthrottle.go:108-122 | For any pools and inserts: a pool's releases keep the bound exactly when every two of its members m >= threshold ranks apart and below the cap are released at least (m - threshold + 1) delays apart |
| `Fanout.BoundKnownBeforehand` | internal/cli/fanoutthrottle.go:165-179 | With instantaneous inserts that condition is about the running maxima of the offsets, so the recipients decide it before anything is sent |
| `Fanout.MixedPoolsBunch` | internal/cli/fanoutthrottle.go:114-117 | Across pools it may fail: three recipients of a pool that sustains two are released together |
| `Fanout.SlowInsertsBunch` | internal/cli/send.go:464-470 | So it may with slow inserts: two recipients of a pool that sustains one are released together |
| `Digest.RootOf` | internal/cli/digest.go:153-174 | The memoised walk returns the root the plain walk defines, and the memo stays right |
| `Digest.InSetByMessage` | internal/cli/digest.go:145-151 | The conversational messages of the window, by id; of two with one id the later stays |
| `Digest.GroupByRoot` | internal/cli/digest.go:176-180 | Whatever the order of the map, each message is in the group of its own root and in no other, once |
| `Digest.SameGroupIffJoined` | internal/cli/digest.go:145-180 | When replies point to earlier messages, two messages share a group exactly when reply edges inside the window join them |
| `Digest.BuildThreadTree` | internal/cli/thread.go:65-112 | A tree is built exactly when one message has no parent in the group; the error cases are told apart |
| `Digest.GroupIsRooted` | internal/cli/digest.go:182-188 | Every group is a tree over its root, so the error branch is dead when replies point to earlier messages |
| `Digest.Summarise` | internal/cli/digest.go:189-200 | Participants are all senders and recipients, the latest message is the one of largest id, and the thread is closed exactly when that one awaits no reply |
| `Digest.ClassifyThreads` | internal/cli/digest.go:145-203 | When replies point to earlier messages: no error, and exactly one described thread per root |
| `Digest.AssembleDigest` | internal/cli/digest.go:208-273 | Every agent's row counts its mail, its threads, the closed and the open ones; the open list holds the unclosed threads in scope |
| `Digest.CountsAreGroups` | internal/cli/digest.go:225-235 | Threads = Closed + InFlight = number of groups the agent takes part in |
| `Digest.CountsByStat` | internal/cli/digest.go:208-224 | An agent's two counts are those of its last stat, and zero without one |
| `Digest.OpenByThread` | internal/cli/digest.go:236-262 | The open list has exactly the open threads in scope, each with its latest message, its sender and the party owing the reply |
| `Digest.OpenMeansAwaiting` | internal/cli/digest.go:189-203 | From messages: a thread is open exactly when the newest message that reply edges join to it neither failed nor renounced a reply, and the reply is owed by that message's recipient |
| `Digest.InFlightIsAwaited` | internal/cli/digest.go:225-235 | In flight counts exactly the agent's threads whose newest message awaits a reply, closed the others |
| `Migration.RemoveTomlSections` | internal/cli/codex_install.go:133-151 | Keeps exactly the sections whose header does not match, in order |
| `Migration.BlocksCutAtHeaders` | internal/cli/codex_install.go:130-151 | The sections are the lines in order, cut before each header line, none lost |
| `Migration.RenameLegacyMcpSections` | internal/cli/codex_install.go:111-128 | Keeps the number of lines and every line that is neither an old header nor a command line of an old section |
| `Migration.HeaderBecomesNew` | internal/cli/codex_install.go:118-120 | A rewritten header heads the same section under the new name |
| `Migration.NoOldHeaderSurvives` | internal/cli/codex_install.go:111-128 | No line of the result is an old header, and no line is broken |
| `Migration.KeptIsWhole` | internal/cli/codex_install.go:133-151 | What removal keeps has no old header and only lines there were |
| `Migration.MigrateLegacyMcpSection` | internal/cli/codex_install.go:85-99 | Nothing happens exactly when the search finds no old header; old sections are dropped when it also finds a new one, and renamed otherwise |
| `Migration.ChoiceByHeaders` | internal/cli/codex_install.go:85-99 | From the lines, spread headers included: untouched exactly without an old header, removed exactly with old and new ones, renamed exactly with old ones only |
| `Migration.RenamingKeepsEveryLine` | internal/cli/codex_install.go:93-128 | With only the old section: every line stays in its place, each old header becomes a new one, and lines outside old sections or other than commands are as they were |
| `Migration.RemovalKeepsTheRest` | internal/cli/codex_install.go:93-151 | With both sections: what is left is every line outside the old sections, in order, with every header of the new one |
| `Migration.CommandsFollow` | internal/cli/codex_install.go:123-125 | A command line of a renamed section names the new program where it first named the old, and so on to its end |
| `Migration.OldConfigBecomesNew` | internal/cli/codex_install.go:60-62 | The config an older release wrote becomes, line for line, the one this release writes |
| `Migration.HeaderShape` | internal/cli/codex_install.go:85-92 | A header is brackets around mcp_servers, the name and perhaps a dotted rest without a closing bracket, with blanks around; nothing else is one |
| `Migration.SectionsEndAtBrackets` | internal/cli/codex_install.go:111-122 | A section runs over every line that does not begin with a bracket behind blanks, and ends at each that does and is no header of it |
| `Migration.MigrationIsIdempotent` | internal/cli/codex_install.go:64-84 | A second migration leaves the text as it is, for every text |
| `Migration.SearchFindsExactly` | internal/cli/codex_install.go:86-93 | The whole-text search hits exactly when some line is a header, or some header opens on one line and closes on a later one |
| `Migration.SpreadLinesAreSpans` | internal/cli/codex_install.go:86-93 | Spread headers, read line by line, are exactly the search hits with a line break inside |
| `Migration.SearchFindsHeaderLines` | internal/cli/codex_install.go:86-93 | On text whose headers close on their own line the whole-text search hits exactly when some line is a header |
| `Migration.SecondVerdict` | internal/cli/codex_install.go:78-93 | For every text: a second migration reports nothing exactly when the first left no spread header |
| `Migration.SecondVerdictAfterRenaming` | internal/cli/codex_install.go:111-128 | After a renaming, exactly when the text had none to begin with: renaming neither makes nor mends one |
| `Migration.SecondVerdictAfterRemoval` | internal/cli/codex_install.go:133-151 | After a removal, exactly when the kept lines have none |
| `Migration.SecondMigrationFindsNothing` | internal/cli/codex_install.go:78-84 | On text whose headers close on their own line a second migration reports nothing |
| `Migration.SpreadHeaderNeverSettles` | internal/cli/codex_install.go:86-97 | A header spread over two lines is reported as migrated by every call and edited by none |
| `Migration.TheTableRenames` | internal/cli/codex_install.go:60-62 | The one entry of the rename table meets what the laws ask of names |
| `Flags.ReorderFlagsFirst` | internal/cli/flagorder.go:30-66 | Flag tokens with their values first, positionals after, both in order |
| `Flags.ReorderingIsFaithful` | internal/cli/flagorder.go:8-29 | Parsing the reordered line by Go's rules equals a position-independent parse, errors included, exactly unless a value-less flag ends a line with positionals or a flag-like token is the first positional behind a terminator |
| `Flags.OnlyDanglingWantsValue` | internal/cli/flagorder.go:53-59 | The position-independent parser misses a value exactly at a value-less flag at the end |
| `Flags.ReorderTwice` | internal/cli/flagorder.go:30-66 | Without a terminator reordering is idempotent |
| `Flags.ReorderTwiceExactly` | internal/cli/flagorder.go:30-66 | For every line: reordering twice is reordering once exactly when, in the positionals followed by what the terminator protected, flags stand in front only |
| `Flags.SettledIsInFront` | internal/cli/flagorder.go:30-66 | A line is left as it is exactly when it is flags with their values and then tokens that look like no flag |
| `Flags.TerminatorIsLost` | internal/cli/flagorder.go:36-41 | A family of lines where it is not: what the terminator protected becomes a flag the second time |
| `Flags.FlagForms` | internal/cli/flagorder.go:8-29 | Go's reading of a defined flag in each of its forms, with one dash or two: value behind an equals sign, bool without value, next token, missing value |
| `Flags.PlainTokens` | internal/cli/flagorder.go:30-66 | A lone dash is a positional to both, and the terminator is dropped by both |
| `Observer.MailmanObserver.Inspect` | internal/cli/observe_mailmen.go:174-239 | One sample moves one agent's episode as specified and leaves all others alone; it alerts exactly when the sample is bad for the second time or shows a restart loop, no alert is out, and the store takes the notice |
| `Observer.MailmanObserver.Sweep` | internal/cli/observe_mailmen.go:167-246 | A sweep gives every agent its turn, forgets agents off the roster, and breaks off exactly at the first due alert the store refuses |
| `Observer.EpisodeRemembers` | internal/cli/observe_mailmen.go:187-238 | The episode fields alert exactly when the history of samples says an alert is due |
| `Observer.Watch` | internal/cli/observe_mailmen.go:167-246 | Sweep after sweep, for any listings and probes, an agent is alerted on in exactly the sweeps the law on its history names |
| `Observer.AlertsAreApart` | internal/cli/observe_mailmen.go:203-219 | Between two alerts for one agent lies a re-arm: off the roster or out of paste mode, disabled, up after being down, or two steady samples running |
| `Observer.AlertNeedsTwoSamples` | internal/cli/observe_mailmen.go:197-223 | A first sample and a single inactive sample never alert |
| `Observer.TurnsByListing` | internal/cli/observe_mailmen.go:167-196 | What a sweep says of an agent by its place on the roster: a failed probe nothing, no paste mode or absence that it is gone, a sample what it shows |
| `Observer.SkippedTurnsLeaveNoTrace` | internal/cli/observe_mailmen.go:174-186 | A failed probe alerts nobody, and every later alert falls as if the sweep had not been |
| `Observer.GoneStartsOver` | internal/cli/observe_mailmen.go:167-181 | After an agent was off the roster or out of paste mode an alert needs a sample of its own before it |

## Left out

- The scheduler: which queued row a claim takes (priority bands, ageing, backlog floor, promotion order) is an arbitrary pick among the claimable rows.
- Failing store calls in the delivery loop and abrupt crashes after startup: the loop logs and ignores such failures, and the single-flight law would not hold. A crash before startup is modelled by an arbitrary table.
- Mailmen of one agent running twice; one mailman per agent is the deployment's rule.
- Sleeping: waits are values in the endings and a stop signal may come at each; no real clock. `postDeliverDelay` and the fixed retry intervals are not modelled.
- tmux, discovery, pane classification, the paste's own verify loop and the observe gate's inner loop: arbitrary answers. The extended verify budget after a compaction does not change which results a paste may have.
- Pull delivery for hook-context and mailbox-only agents; a mailman for such an agent recovers and exits, as modelled.
- Metrics, logging, the doorbell, the watchdog, the spin guard, the retention sweep's schedule (its deletes are `Delete` events), the respawn pathway and self-observation for the provider cap.
- Usage-limit bookkeeping and the map of deferral start times, which feed metrics only.
- White space beyond Latin-1 in `TrimSpace`, which decides whether a control body is a session reset.
- Column values that no guard reads: ids, timestamps, reply links, notice bodies (a notice carries its original's body instead of rendered text).
- How the wake jitter and the cap-aware extension are drawn: any non-negative spread is added to the throttle wait, and the resume backoff is an arbitrary function at every sighting.
- The paste itself in `maybeAutoResumeRateLimited`: a failed paste counts like a successful one, as in the source.
- Rounding: the budget is over reals, n^1.5 is any non-negative function whose square is n^3, and stamps keep full precision. Unreadable stamps are not modelled.
- Capacity, rate and alpha changing between two charges of one account.
- Reading each recipient's provider: a recipient whose provider cannot be read counts as one without a provider.
- Cancelling a fan-out's wait, and the single-recipient checks behind an insert (unknown or full recipient), which are insert outcomes.
- The order of the digest's rows and open threads, message previews, and the children of a thread tree; the digest reads only its root.
- Digest.ClassifyThreads: does not say what happens when replies form a cycle, because a reply is stored after the message it answers; the walk is modelled with its cycle guard and its termination is proved.
- Config writing beyond the section migration, and TOML itself: a line is a header if it looks like one, as in the source.
- Values a flag's own type rejects, and `-h`: Go's parser is modelled up to splitting the line into flags, values and positionals.
- The auto-reap schedule of the observer and the unit resolver; a reap is a bus event.
