/**
 * The dispatch receipt with its outbox row and its numbered event log, and what each
 * transaction on it does to the stored rows.
 *
 * A receipt row is created together with its one outbox row and its first event and
 * never separated from them, so the three are kept as one value here.
 */
module DispatchReceipt {
  import opened Wrappers
  import opened ContextLease

  type DispatchId(==, !new)
  type DrawingId(==, !new)
  type ThreadId(==, !new)
  type RevisionId(==, !new)
  type Token(==, !new)
  type RuntimeRequest(==, !new)

  const START_DEADLINE_MS := 30_000
  const LIVENESS_WINDOW_MS := 60_000

  datatype Execution =
    | Queued
    | RuntimeAcknowledged
    | Running
    | Blocked
    | Succeeded
    | Failed
    | Cancelled
    | OutcomeUnknown

  datatype Effect = NotRequested | Pending | Committed | Rejected | EffectFailed

  datatype OutboxState = Waiting | Sending | Delivered | Undeliverable | DeliveryUnknown

  /** What the foreign runtime reports about a run. */
  datatype RuntimeStatus = Working | Idle | Stuck | Done | Lost

  datatype Reason =
    | InvalidOutboxPayload
    | BoardAccessRevoked
    | AuthorityChanged
    | RuntimeUnavailable
    | StartDeadlineElapsed
    | LivenessDeadlineElapsed

  datatype EventKind =
    | DispatchAccepted
    | AcknowledgedAs(status: Execution)
    | ObservedAs(status: Execution)
    | FailedToStart(reason: Reason)
    | BecameUnknown(reason: Reason)
    | EffectDeadlineElapsed
    | EffectCommitted(version: int)

  datatype Event = Event(sequence: nat, kind: EventKind, at: Time)

  datatype Binding = Binding(context: ContextId, generation: Generation)

  datatype Outbox = Outbox(
    state: OutboxState,
    payload: Option<RuntimeRequest>,
    attemptStartedAt: Option<Time>,
    completedAt: Option<Time>)

  datatype Receipt = Receipt(
    drawing: DrawingId,
    run: RunId,
    bindings: seq<Binding>,
    execution: Execution,
    effect: Effect,
    acknowledgedAt: Option<Time>,
    lastObservedAt: Option<Time>,
    executionTerminalAt: Option<Time>,
    executionReason: Option<Reason>,
    effectTerminalAt: Option<Time>,
    evidence: Option<int>,
    startDeadline: Time,
    livenessDeadline: Time,
    effectDeadline: Time,
    counter: nat,
    events: seq<Event>,
    outbox: Outbox)

  datatype Db = Db(leases: Leases, receipts: map<DispatchId, Receipt>)

  datatype DispatchError = DispatchInvalid | LeaseNotHeld | EffectNotAllowed | AlreadyExists

  predicate IsTerminal(e: Execution) {
    e == Succeeded || e == Failed || e == Cancelled || e == OutcomeUnknown
  }

  predicate IsActive(e: Execution) {
    e == RuntimeAcknowledged || e == Running || e == Blocked
  }

  function TerminalAt(e: Execution, now: Time, otherwise: Option<Time>): Option<Time> {
    if IsTerminal(e) then Some(now) else otherwise
  }

  /** The guarded write of `appendTransition` together with the event it inserts. */
  function Advance(r: Receipt, to: Execution, kind: EventKind, now: Time): Receipt {
    Log(r.(execution := to), kind, now)
  }

  function Log(r: Receipt, kind: EventKind, now: Time): Receipt {
    r.(counter := r.counter + 1, events := r.events + [Event(r.counter + 1, kind, now)])
  }

  function Settle(o: Outbox, to: OutboxState, now: Time): Outbox {
    o.(state := to, payload := None, completedAt := Some(now))
  }

  // ---- releasing every bound generation ----

  /** A set of rows, whatever order the bindings are visited in. */
  function ReleaseAll(rows: Leases, bindings: seq<Binding>, now: Time): Leases {
    map c | c in rows ::
      if Binding(c, rows[c].generation) in bindings && rows[c].releasedAt.None?
      then rows[c].(releasedAt := Some(now))
      else rows[c]
  }

  function Resolve(db: Db, d: DispatchId, r: Receipt, release: bool, now: Time): Db {
    Db(if release then ReleaseAll(db.leases, r.bindings, now) else db.leases,
       db.receipts[d := r])
  }

  // ---- accept ----

  datatype Audience = PrivateAudience | DrawingAudience | OtherAudience

  datatype Thread = Thread(drawing: DrawingId, orchestrator: bool, audience: Audience, owner: Option<UserId>)

  datatype Mount = Mount(drawing: DrawingId, revision: RevisionId, audience: Audience,
                         allowed: seq<ContextId>, token: Token)

  /** The rows of other tables that admission and commit read. */
  datatype Board = Board(threads: map<ThreadId, Thread>, mounts: map<RunId, Mount>,
                         contexts: map<ContextId, DrawingId>)

  datatype Request = Request(
    drawing: DrawingId,
    origin: ThreadId,
    publicThread: ThreadId,
    initiator: UserId,
    targets: seq<ContextId>,
    revision: RevisionId,
    run: RunId,
    bindings: seq<Binding>,
    allowed: seq<ContextId>,
    payload: RuntimeRequest,
    effectDeadline: Time)

  function Elements<T>(s: seq<T>): set<T> {
    set x | x in s
  }

  /** `new Map(leases.map(...))`: a repeated Context keeps its last generation. */
  function Admitted(bindings: seq<Binding>): map<ContextId, Generation> {
    if bindings == [] then map[]
    else
      var last := bindings[|bindings| - 1];
      Admitted(bindings[..|bindings| - 1])[last.context := last.generation]
  }

  predicate OriginAllowed(board: Board, q: Request) {
    q.origin in board.threads &&
    var t := board.threads[q.origin];
    t.drawing == q.drawing && t.orchestrator
    && ((t.audience == PrivateAudience && t.owner == Some(q.initiator)) || t.audience == DrawingAudience)
  }

  predicate PublicThreadAllowed(board: Board, q: Request) {
    q.publicThread in board.threads &&
    board.threads[q.publicThread] == Thread(q.drawing, true, DrawingAudience, None)
  }

  predicate MountAllowed(board: Board, q: Request) {
    q.run in board.mounts &&
    var m := board.mounts[q.run];
    m.drawing == q.drawing && m.revision == q.revision && m.audience == DrawingAudience
    && multiset(m.allowed) == multiset(Elements(q.targets))
  }

  predicate BoardAgrees(board: Board, q: Request) {
    OriginAllowed(board, q) && PublicThreadAllowed(board, q) && MountAllowed(board, q)
    && Elements(q.allowed) == Elements(q.targets)
    && forall c :: c in q.targets ==> c in board.contexts && board.contexts[c] == q.drawing
  }

  predicate OwnsEveryTarget(rows: Leases, q: Request, now: Time) {
    var admitted := Admitted(q.bindings);
    forall c :: c in q.targets ==>
      c in rows && rows[c].run == q.run && IsLive(rows[c], now)
      && c in admitted && admitted[c] == rows[c].generation
  }

  function NewReceipt(q: Request, now: Time): Receipt {
    Receipt(q.drawing, q.run, q.bindings, Queued, Pending, None, None, None, None, None, None,
            now + START_DEADLINE_MS, now + START_DEADLINE_MS + LIVENESS_WINDOW_MS, q.effectDeadline,
            1, [Event(1, DispatchAccepted, now)],
            Outbox(Waiting, Some(q.payload), None, None))
  }

  function RefuseAccept(db: Db, board: Board, d: DispatchId, q: Request, now: Time): Option<DispatchError> {
    var targets := Elements(q.targets);
    if targets == {} || |targets| != |q.bindings| then Some(DispatchInvalid)
    else if !BoardAgrees(board, q) then Some(DispatchInvalid)
    else if !OwnsEveryTarget(db.leases, q, now) then Some(LeaseNotHeld)
    else if d in db.receipts || exists e :: e in db.receipts && db.receipts[e].run == q.run then Some(AlreadyExists)
    else None
  }

  function Accept(db: Db, board: Board, d: DispatchId, q: Request, now: Time): Db {
    if RefuseAccept(db, board, d, q, now).Some? then db
    else db.(receipts := db.receipts[d := NewReceipt(q, now)])
  }

  // ---- outbox claim ----

  predicate CanClaim(db: Db, d: DispatchId) {
    d in db.receipts && db.receipts[d].outbox.state == Waiting
  }

  function Claim(db: Db, d: DispatchId, now: Time): Db
    requires CanClaim(db, d)
  {
    var r := db.receipts[d];
    db.(receipts := db.receipts[d := r.(outbox := r.outbox.(state := Sending, attemptStartedAt := Some(now)))])
  }

  // ---- acknowledge, fail, observe ----

  predicate IsQueued(db: Db, d: DispatchId) {
    d in db.receipts && db.receipts[d].execution == Queued
  }

  function AcknowledgedStatus(s: RuntimeStatus): Execution {
    match s
    case Done => Succeeded
    case Lost => OutcomeUnknown
    case _ => RuntimeAcknowledged
  }

  function AcknowledgedReceipt(r: Receipt, s: RuntimeStatus, now: Time): Receipt {
    var to := AcknowledgedStatus(s);
    Advance(r, to, AcknowledgedAs(to), now).(
      acknowledgedAt := Some(now), lastObservedAt := Some(now),
      livenessDeadline := now + LIVENESS_WINDOW_MS,
      executionTerminalAt := TerminalAt(to, now, r.executionTerminalAt),
      outbox := if r.outbox.state == Sending then Settle(r.outbox, Delivered, now) else r.outbox)
  }

  function Acknowledge(db: Db, d: DispatchId, s: RuntimeStatus, now: Time): Db {
    if !IsQueued(db, d) then db
    else Resolve(db, d, AcknowledgedReceipt(db.receipts[d], s, now), AcknowledgedStatus(s) == OutcomeUnknown, now)
  }

  predicate Unsettled(o: Outbox) {
    o.state == Waiting || o.state == Sending
  }

  function FailedReceipt(r: Receipt, why: Reason, now: Time): Receipt {
    Advance(r, Failed, FailedToStart(why), now).(
      executionTerminalAt := Some(now), executionReason := Some(why),
      effect := EffectFailed, effectTerminalAt := Some(now),
      outbox := if Unsettled(r.outbox) then Settle(r.outbox, Undeliverable, now) else r.outbox)
  }

  function FailBeforeAck(db: Db, d: DispatchId, why: Reason, now: Time): Db {
    if !IsQueued(db, d) then db
    else Resolve(db, d, FailedReceipt(db.receipts[d], why, now), true, now)
  }

  function ObservedStatus(s: RuntimeStatus): Execution {
    match s
    case Done => Succeeded
    case Lost => OutcomeUnknown
    case Stuck => Blocked
    case _ => Running
  }

  function ObservedReceipt(r: Receipt, s: RuntimeStatus, now: Time): Receipt {
    var to := ObservedStatus(s);
    Advance(r, to, ObservedAs(to), now).(
      lastObservedAt := Some(now), livenessDeadline := now + LIVENESS_WINDOW_MS,
      executionTerminalAt := TerminalAt(to, now, r.executionTerminalAt))
  }

  function Observe(db: Db, d: DispatchId, s: RuntimeStatus, now: Time): Db {
    if !(d in db.receipts && IsActive(db.receipts[d].execution)) then db
    else Resolve(db, d, ObservedReceipt(db.receipts[d], s, now), ObservedStatus(s) == OutcomeUnknown, now)
  }

  // ---- reconcile ----

  function UnknownReceipt(r: Receipt, why: Reason, now: Time): Receipt {
    Advance(r, OutcomeUnknown, BecameUnknown(why), now).(
      executionTerminalAt := Some(now), executionReason := Some(why))
  }

  predicate StartOverdue(r: Receipt, now: Time) {
    r.execution == Queued && r.startDeadline <= now
  }

  predicate LivenessOverdue(r: Receipt, now: Time) {
    IsActive(r.execution) && r.livenessDeadline <= now
  }

  predicate EffectOverdue(r: Receipt, now: Time) {
    r.effect == Pending && r.effectDeadline <= now
  }

  function ReconcileExecution(r: Receipt, now: Time): Receipt {
    if StartOverdue(r, now) then
      UnknownReceipt(r, StartDeadlineElapsed, now).(
        outbox := if Unsettled(r.outbox) then Settle(r.outbox, DeliveryUnknown, now) else r.outbox)
    else if LivenessOverdue(r, now) then UnknownReceipt(r, LivenessDeadlineElapsed, now)
    else r
  }

  function ReconcileEffect(r: Receipt, now: Time): Receipt {
    if EffectOverdue(r, now)
    then Log(r.(effect := EffectFailed, effectTerminalAt := Some(now)), EffectDeadlineElapsed, now)
    else r
  }

  function Reconcile(db: Db, d: DispatchId, now: Time): Db {
    if d !in db.receipts then db
    else
      var r := db.receipts[d];
      var r' := ReconcileEffect(ReconcileExecution(r, now), now);
      Resolve(db, d, r', StartOverdue(r, now) || LivenessOverdue(r, now) || EffectOverdue(r, now), now)
  }

  // ---- commit ----

  predicate HoldsLease(rows: Leases, b: Binding, run: RunId, now: Time) {
    b.context in rows && rows[b.context].generation == b.generation
    && rows[b.context].run == run && IsLive(rows[b.context], now)
  }

  predicate HoldsEveryLease(rows: Leases, bindings: seq<Binding>, run: RunId, now: Time) {
    forall i :: 0 <= i < |bindings| ==> HoldsLease(rows, bindings[i], run, now)
  }

  function RefuseCommit(db: Db, board: Board, drawing: DrawingId, d: DispatchId, run: RunId,
                        token: Token, now: Time): Option<DispatchError>
  {
    if !(d in db.receipts && db.receipts[d].drawing == drawing && db.receipts[d].run == run
         && db.receipts[d].effect == Pending) then Some(EffectNotAllowed)
    else if !(run in board.mounts && board.mounts[run].token == token) then Some(EffectNotAllowed)
    else if !HoldsEveryLease(db.leases, db.receipts[d].bindings, run, now) then Some(LeaseNotHeld)
    else None
  }

  function CommittedReceipt(r: Receipt, version: int, now: Time): Receipt {
    Log(r.(effect := Committed, effectTerminalAt := Some(now), evidence := Some(version)),
        EffectCommitted(version), now)
  }

  function Commit(db: Db, board: Board, drawing: DrawingId, d: DispatchId, run: RunId,
                  token: Token, version: int, now: Time): Db
  {
    if RefuseCommit(db, board, drawing, d, run, token, now).Some? then db
    else Resolve(db, d, CommittedReceipt(db.receipts[d], version, now), true, now)
  }
}
