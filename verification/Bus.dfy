/** The message table and the mailmen that share it, as a protocol.

    One event is one store transaction (or one tmux effect that matters to the table), so a sequence of events
    is an arbitrary interleaving of all mailmen, all senders and all operator commands. `Enabled` is what a
    mailman's own position and the store's WHERE clauses allow; `Next` is what the transaction writes. */
module Bus {

  type Agent = nat // position in the agent roster
  type RowId = nat // AUTOINCREMENT key: position in the append-only table

  datatype Kind =
    | Message | Control | FailureNotice | StrandedDraft | Ping
    | DedupeNotice | BacklogAnnounce | StuckChamberNotice | DeadMailmanNotice

  /** Row states. `Erased` is a deleted row; the key is never handed out again. */
  datatype State =
    | Queued | Delivering | Delivered(verified: bool) | Failed
    | Acknowledged | Deferred(trigger: string) | Refused | Erased
  {
    predicate Final() {
      Delivered? || Failed? || Acknowledged? || Refused? || Erased?
    }
  }

  datatype Row = Row(sender: Agent, recipient: Agent, kind: Kind, body: string, forced: bool, state: State)

  /** Where one agent's mailman stands. `Holding` carries the in-memory copy returned by the claim; `landed` says
      the paste took. `Owing` is the gap between the terminal mark and the optional notice to the sender. */
  datatype Desk =
    | Down
    | Idle
    | Holding(id: RowId, msg: Row, landed: bool)
    | Owing(original: Row, absorbed: bool)

  /** `landings` counts, per row, how often its text reached a pane. */
  datatype System = System(
    rows: seq<Row>, desks: seq<Desk>, parked: set<Agent>, landings: multiset<RowId>)

  datatype Event =
    // one mailman
    | Start(actor: Agent)                       // startup recovery
    | Stop(actor: Agent)                        // graceful exit
    | Claim(actor: Agent, id: RowId)
    | Requeue(actor: Agent)                     // RecoverDelivering in a deferral branch
    | Land(actor: Agent)                        // the paste took
    | Finish(actor: Agent, verdict: Verdict)    // MarkDelivered, MarkDeliveredInInputBox, MarkFailed
    | Notify(actor: Agent, notice: Kind)        // InsertNotice back to the sender
    | Rest(actor: Agent)                        // no notice is due
    | Archive(actor: Agent, draft: string)      // InsertNotice of a stranded draft to oneself
    | Alert(actor: Agent, conductor: Agent)     // InsertNotice of a freshness alert
    | Park(actor: Agent)                        // SetStuck
    | Confirm(actor: Agent, id: RowId)          // MarkVerifiedByDedupe
    | Release(actor: Agent)                     // PromoteDeferred of the rows staged for resume
      // anyone else
    | Unpark(agent: Agent)                      // register --force
    | Promote(agent: Agent, trigger: string)    // flush_deferred, register
    | Send(row: Row)                            // InsertMessage, InsertNotice by the observer, a refused row
    | Acknowledge(id: RowId)
    | Reap(id: RowId)
    | Delete(doomed: set<RowId>)

  datatype Verdict = MarkedDelivered(verified: bool) | MarkedFailed(absorbed: bool)

  const RESUME := "resume"

  // ---- Table writes -------------------------------------------------------------------------------------------

  /** UPDATE … SET state = 'queued' WHERE to_agent = a AND state = 'delivering'. */
  function RecoverDelivering(rows: seq<Row>, a: Agent): seq<Row> {
    seq(|rows|, i requires 0 <= i < |rows| =>
      if rows[i].recipient == a && rows[i].state == Delivering then rows[i].(state := Queued) else rows[i])
  }

  function PromoteDeferred(rows: seq<Row>, a: Agent, trigger: string): seq<Row> {
    seq(|rows|, i requires 0 <= i < |rows| =>
      if rows[i].recipient == a && rows[i].state == Deferred(trigger) then rows[i].(state := Queued) else rows[i])
  }

  function DeleteRows(rows: seq<Row>, doomed: set<RowId>): seq<Row> {
    seq(|rows|, i requires 0 <= i < |rows| => if i in doomed then rows[i].(state := Erased) else rows[i])
  }

  /** UPDATE … SET state = to WHERE id = ? AND state = from: no row matches, nothing happens. */
  function MarkIf(rows: seq<Row>, id: RowId, from: State, to: State): seq<Row> {
    if id < |rows| && rows[id].state == from then rows[id := rows[id].(state := to)] else rows
  }

  function Notice(from: Agent, to: Agent, kind: Kind, body: string): Row {
    Row(from, to, kind, body, false, Queued)
  }

  // ---- What each event needs ----------------------------------------------------------------------------------

  predicate At(s: System, a: Agent, d: Desk) {
    a < |s.desks| && s.desks[a] == d
  }

  predicate Holds(s: System, a: Agent) {
    a < |s.desks| && s.desks[a].Holding?
  }

  /** Notices a terminal outcome may still send: never about a failure notice or a ping, and a dedupe notice only
      about an absorbed message. */
  predicate NoticeDue(original: Row, absorbed: bool, notice: Kind) {
    match notice
    case FailureNotice => !absorbed && original.kind != FailureNotice && original.kind != Ping
    case DedupeNotice => absorbed && original.kind == Message
    case _ => false
  }

  predicate VerdictFits(d: Desk, v: Verdict)
    requires d.Holding?
  {
    match v
    case MarkedDelivered(verified) =>
      (d.landed || (verified && (d.msg.kind == Ping || d.msg.kind == Control)))
    case MarkedFailed(absorbed) => !d.landed && (absorbed ==> d.msg.kind != Ping)
  }

  predicate Enabled(s: System, e: Event) {
    match e
    case Start(a) => At(s, a, Down)
    case Stop(a) => a < |s.desks| && !s.desks[a].Down? && (Holds(s, a) ==> !s.desks[a].landed)
    case Claim(a, id) =>
      At(s, a, Idle) && a !in s.parked && id < |s.rows| && s.rows[id].recipient == a && s.rows[id].state == Queued
    case Requeue(a) => Holds(s, a) && !s.desks[a].landed
    case Land(a) => Holds(s, a) && !s.desks[a].landed && s.desks[a].msg.kind != Ping
    case Finish(a, v) => Holds(s, a) && VerdictFits(s.desks[a], v)
    case Notify(a, k) => a < |s.desks| && s.desks[a].Owing? && NoticeDue(s.desks[a].original, s.desks[a].absorbed, k)
    case Rest(a) => a < |s.desks| && s.desks[a].Owing?
    case Archive(a, _) => Holds(s, a) && !s.desks[a].landed && s.desks[a].msg.kind != StrandedDraft
    case Alert(a, to) => At(s, a, Idle) && to != a
    case Park(a) => At(s, a, Idle)
    case Confirm(a, _) => Holds(s, a) && !s.desks[a].landed
    case Release(a) => At(s, a, Idle)
    case Unpark(_) => true
    case Promote(_, _) => true
    case Send(row) => row.state == Queued || row.state.Deferred? || row.state == Refused
    case Acknowledge(_) => true
    case Reap(_) => true
    case Delete(_) => true
  }

  function Next(s: System, e: Event): System
    requires Enabled(s, e)
  {
    match e
    case Start(a) => s.(rows := RecoverDelivering(s.rows, a), desks := s.desks[a := Idle])
    case Stop(a) => s.(desks := s.desks[a := Down])
    case Claim(a, id) =>
      var row := s.rows[id].(state := Delivering);
      s.(rows := s.rows[id := row], desks := s.desks[a := Holding(id, row, false)])
    case Requeue(a) => s.(rows := RecoverDelivering(s.rows, a), desks := s.desks[a := Idle])
    case Land(a) =>
      var d := s.desks[a];
      s.(desks := s.desks[a := d.(landed := true)], landings := s.landings + multiset{d.id})
    case Finish(a, v) =>
      var d := s.desks[a];
      var to := match v case MarkedDelivered(verified) => Delivered(verified) case MarkedFailed(_) => Failed;
      s.(rows := MarkIf(s.rows, d.id, Delivering, to),
         desks := s.desks[a := Owing(d.msg, v.MarkedFailed? && v.absorbed)])
    case Notify(a, k) =>
      var m := s.desks[a].original;
      s.(rows := s.rows + [Notice(a, m.sender, k, m.body)], desks := s.desks[a := Idle])
    case Rest(a) => s.(desks := s.desks[a := Idle])
    case Archive(a, draft) => s.(rows := s.rows + [Notice(a, a, StrandedDraft, draft)])
    case Alert(a, to) => s.(rows := s.rows + [Notice(a, to, StuckChamberNotice, "")])
    case Park(a) => s.(parked := s.parked + {a})
    case Confirm(_, id) => s.(rows := MarkIf(s.rows, id, Delivered(false), Delivered(true)))
    case Release(a) => s.(rows := PromoteDeferred(s.rows, a, RESUME))
    case Unpark(a) => s.(parked := s.parked - {a})
    case Promote(a, trigger) => s.(rows := PromoteDeferred(s.rows, a, trigger))
    case Send(row) => s.(rows := s.rows + [row])
    case Acknowledge(id) => s.(rows := MarkIf(s.rows, id, Queued, Acknowledged))
    case Reap(id) => s.(rows := MarkIf(s.rows, id, Queued, Failed))
    case Delete(doomed) => s.(rows := DeleteRows(s.rows, doomed))
  }

  /** The mailman whose step this is; the rest belong to senders and operators. */
  predicate ByMailman(e: Event, a: Agent) {
    match e
    case Start(b) => a == b
    case Stop(b) => a == b
    case Claim(b, _) => a == b
    case Requeue(b) => a == b
    case Land(b) => a == b
    case Finish(b, _) => a == b
    case Notify(b, _) => a == b
    case Rest(b) => a == b
    case Archive(b, _) => a == b
    case Alert(b, _) => a == b
    case Park(b) => a == b
    case Confirm(b, _) => a == b
    case Release(b) => a == b
    case _ => false
  }

  // ---- Runs ---------------------------------------------------------------------------------------------------

  predicate Admissible(s: System, events: seq<Event>)
    decreases |events|
  {
    events == [] || (Enabled(s, events[0]) && Admissible(Next(s, events[0]), events[1..]))
  }

  function Run(s: System, events: seq<Event>): System
    requires Admissible(s, events)
    decreases |events|
  {
    if events == [] then s else Run(Next(s, events[0]), events[1..])
  }

  /** Any table at all, including rows a crash left delivering, with every mailman down. */
  ghost predicate Cold(s: System) {
    && (forall a | 0 <= a < |s.desks| :: s.desks[a] == Down)
    && (forall i | 0 <= i < |s.rows| && s.rows[i].state == Delivering :: s.rows[i].recipient < |s.desks|)
    && s.landings == multiset{}
  }
}
