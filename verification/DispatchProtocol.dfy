/**
 * Everything that may happen to leases and receipts, interleaved without restriction.
 *
 * A lease call that reads before it writes is two actions with the planned write held in
 * between, so the read may be stale.  A generation is drawn when a call begins.  A worker
 * is a sequence of actions and may crash between any two of them; the foreign start is
 * counted when it is made.  Every action carries its own clock reading, and nothing
 * relates the readings of different actions.
 */
module DispatchProtocol {
  import opened Wrappers
  import opened ContextLease
  import opened DispatchReceipt

  type CallId = nat
  type WorkerId = nat

  /** A lease call between its read and its write. */
  datatype Call =
    | Acquiring(context: ContextId, grant: Lease, creating: bool)
    | Renewing(context: ContextId, generation: Generation, run: RunId, caller: Caller, expiresAt: Time, now: Time)
    | Transferring(context: ContextId, generation: Generation, caller: Caller, drawn: Generation,
                   to: Recipient, expiresAt: Time, now: Time)

  /** Where a worker stands in `processDispatchOutbox` after it won the claim. */
  datatype Stage =
    | Claimed
    | Loaded
    | Authorized
    | Giving(up: Reason)
    | Started(status: RuntimeStatus)
    | Acked(status: RuntimeStatus)

  datatype Worker = Worker(dispatch: DispatchId, stage: Stage)

  datatype StartOutcome = RunStarted(status: RuntimeStatus) | NotConnected | Unclear

  /** The facts a generation was granted with. */
  datatype Fact = Fact(context: ContextId, run: RunId, initiator: UserId, horizon: Time)

  /**
   * `drawn`: generations handed out by the random source.  `facts`: those ever written to
   * a lease row.  `starts`: foreign starts made.  The last two are history only; no guard
   * reads them.
   */
  datatype World = World(
    db: Db,
    drawn: set<Generation>,
    facts: map<Generation, Fact>,
    calls: map<CallId, Call>,
    workers: map<WorkerId, Worker>,
    starts: multiset<DispatchId>)

  datatype Action =
    | BeginAcquire(call: CallId, context: ContextId, drawn: Generation, holder: OrchestratorId, initiator: UserId,
                   run: RunId, ttl: int, horizon: Time, now: Time)
    | TryCreate(call: CallId)
    | TryRegrant(call: CallId)
    | ReadForRenew(call: CallId, context: ContextId, generation: Generation, run: RunId, caller: Caller, ttl: int, now: Time)
    | WriteRenewal(call: CallId)
    | ReadForTransfer(call: CallId, context: ContextId, generation: Generation, caller: Caller, drawn: Generation,
                      to: Recipient, ttl: int, now: Time)
    | WriteTransfer(call: CallId)
    | ReleaseLease(context: ContextId, generation: Generation, run: RunId, caller: Caller, now: Time)
    | AcceptReceipt(board: Board, dispatch: DispatchId, request: Request, now: Time)
    | ClaimOutbox(worker: WorkerId, dispatch: DispatchId, now: Time)
    | LoadDispatch(worker: WorkerId)
    | Authorize(worker: WorkerId, refusal: Option<Reason>)
    | StartRuntime(worker: WorkerId, outcome: StartOutcome)
    | AcknowledgeStart(worker: WorkerId, now: Time)
    | ObserveStart(worker: WorkerId, now: Time)
    | GiveUp(worker: WorkerId, now: Time)
    | ObserveRuntime(dispatch: DispatchId, status: RuntimeStatus, now: Time)
    | ReconcileReceipt(dispatch: DispatchId, now: Time)
    | CommitEffect(board: Board, drawing: DrawingId, dispatch: DispatchId, run: RunId, token: Token, version: int, now: Time)
    | CrashCall(call: CallId)
    | CrashWorker(worker: WorkerId)

  function Initial(): World {
    World(Db(map[], map[]), {}, map[], map[], map[], multiset{})
  }

  predicate Enabled(w: World, a: Action) {
    match a
    case BeginAcquire(k, c, drawn, holder, initiator, run, ttl, horizon, now) =>
      k !in w.calls && drawn !in w.drawn && now < horizon
    case TryCreate(k) => k in w.calls && w.calls[k].Acquiring? && w.calls[k].creating
    case TryRegrant(k) => k in w.calls && w.calls[k].Acquiring? && !w.calls[k].creating
    case ReadForRenew(k, c, g, run, caller, ttl, now) =>
      k !in w.calls && PlanRenew(Read(w.db.leases, c), g, run, caller, ttl, now).Ok?
    case WriteRenewal(k) => k in w.calls && w.calls[k].Renewing?
    case ReadForTransfer(k, c, g, caller, drawn, to, ttl, now) =>
      k !in w.calls && drawn !in w.drawn && PlanTransfer(Read(w.db.leases, c), g, caller, ttl, now).Ok?
    case WriteTransfer(k) => k in w.calls && w.calls[k].Transferring?
    case ReleaseLease(c, g, run, caller, now) => CanRelease(w.db.leases, c, g, run, caller)
    case AcceptReceipt(board, d, q, now) => RefuseAccept(w.db, board, d, q, now).None?
    case ClaimOutbox(k, d, now) => k !in w.workers && CanClaim(w.db, d)
    case LoadDispatch(k) => k in w.workers && w.workers[k].stage == Claimed
    case Authorize(k, refusal) => k in w.workers && w.workers[k].stage == Loaded
    case StartRuntime(k, outcome) => k in w.workers && w.workers[k].stage == Authorized
    case AcknowledgeStart(k, now) => k in w.workers && w.workers[k].stage.Started?
    case ObserveStart(k, now) => k in w.workers && w.workers[k].stage.Acked?
    case GiveUp(k, now) => k in w.workers && w.workers[k].stage.Giving?
    case ObserveRuntime(d, s, now) => d in w.db.receipts
    case ReconcileReceipt(d, now) => d in w.db.receipts
    case CommitEffect(board, drawing, d, run, token, version, now) =>
      RefuseCommit(w.db, board, drawing, d, run, token, now).None?
    case CrashCall(k) => k in w.calls
    case CrashWorker(k) => k in w.workers
  }

  function FactOf(c: ContextId, row: Lease): Fact {
    Fact(c, row.run, row.initiator, row.horizon)
  }

  /** A row carrying a generation not written before. */
  function WriteGrant(w: World, c: ContextId, row: Lease): World {
    w.(db := w.db.(leases := w.db.leases[c := row]), facts := w.facts[row.generation := FactOf(c, row)])
  }

  function EndCall(w: World, k: CallId): World {
    w.(calls := w.calls - {k})
  }

  function NextCreate(w: World, k: CallId): World
    requires k in w.calls && w.calls[k].Acquiring?
  {
    var call := w.calls[k];
    if call.context !in w.db.leases
    then EndCall(WriteGrant(w, call.context, call.grant), k)
    else w.(calls := w.calls[k := call.(creating := false)])
  }

  function NextRegrant(w: World, k: CallId): World
    requires k in w.calls && w.calls[k].Acquiring?
  {
    var call := w.calls[k];
    if CanRegrant(w.db.leases, call.context, call.grant.acquiredAt)
    then EndCall(WriteGrant(w, call.context, call.grant), k)
    else EndCall(w, k)
  }

  function NextRenewal(w: World, k: CallId): World
    requires k in w.calls && w.calls[k].Renewing?
  {
    var call := w.calls[k];
    if CanRenew(w.db.leases, call.context, call.generation, call.run, call.caller, call.now)
    then EndCall(w.(db := w.db.(leases := Renewed(w.db.leases, call.context, call.expiresAt))), k)
    else EndCall(w, k)
  }

  function NextTransfer(w: World, k: CallId): World
    requires k in w.calls && w.calls[k].Transferring?
  {
    var call := w.calls[k];
    if CanTransfer(w.db.leases, call.context, call.generation, call.caller, call.now)
    then
      var rows := Transferred(w.db.leases, call.context, call.drawn, call.to, call.expiresAt, call.now);
      EndCall(WriteGrant(w, call.context, rows[call.context]), k)
    else EndCall(w, k)
  }

  /** A step of a lease call; the other actions never write a lease row except to release it. */
  predicate OnLeases(a: Action) {
    a.BeginAcquire? || a.TryCreate? || a.TryRegrant? || a.ReadForRenew? || a.WriteRenewal?
    || a.ReadForTransfer? || a.WriteTransfer? || a.ReleaseLease? || a.CrashCall?
  }

  function NextCall(w: World, a: Action): World
    requires Enabled(w, a) && OnLeases(a)
  {
    match a
    case BeginAcquire(k, c, drawn, holder, initiator, run, ttl, horizon, now) =>
      var grant := Grant(drawn, holder, initiator, run, ttl, horizon, now);
      w.(drawn := w.drawn + {drawn}, calls := w.calls[k := Acquiring(c, grant, true)])
    case TryCreate(k) => NextCreate(w, k)
    case TryRegrant(k) => NextRegrant(w, k)
    case ReadForRenew(k, c, g, run, caller, ttl, now) =>
      var expiresAt := PlanRenew(Read(w.db.leases, c), g, run, caller, ttl, now).value;
      w.(calls := w.calls[k := Renewing(c, g, run, caller, expiresAt, now)])
    case WriteRenewal(k) => NextRenewal(w, k)
    case ReadForTransfer(k, c, g, caller, drawn, to, ttl, now) =>
      var expiresAt := PlanTransfer(Read(w.db.leases, c), g, caller, ttl, now).value;
      w.(drawn := w.drawn + {drawn}, calls := w.calls[k := Transferring(c, g, caller, drawn, to, expiresAt, now)])
    case WriteTransfer(k) => NextTransfer(w, k)
    case ReleaseLease(c, g, run, caller, now) =>
      w.(db := w.db.(leases := Released(w.db.leases, c, now)))
    case CrashCall(k) => EndCall(w, k)
  }

  /** The transaction an action of a dispatch runs on the tables, if any. */
  function NextTables(w: World, a: Action): Db
    requires Enabled(w, a) && !OnLeases(a)
  {
    match a
    case AcceptReceipt(board, d, q, now) => Accept(w.db, board, d, q, now)
    case ClaimOutbox(k, d, now) => Claim(w.db, d, now)
    case AcknowledgeStart(k, now) => Acknowledge(w.db, w.workers[k].dispatch, w.workers[k].stage.status, now)
    case ObserveStart(k, now) => Observe(w.db, w.workers[k].dispatch, w.workers[k].stage.status, now)
    case GiveUp(k, now) => FailBeforeAck(w.db, w.workers[k].dispatch, w.workers[k].stage.up, now)
    case ObserveRuntime(d, s, now) => Observe(w.db, d, s, now)
    case ReconcileReceipt(d, now) => Reconcile(w.db, d, now)
    case CommitEffect(board, drawing, d, run, token, version, now) =>
      Commit(w.db, board, drawing, d, run, token, version, now)
    case _ => w.db
  }

  function MovedTo(w: World, k: WorkerId, stage: Stage): map<WorkerId, Worker>
    requires k in w.workers
  {
    w.workers[k := w.workers[k].(stage := stage)]
  }

  /** Where the worker of an action goes next; one that returns or crashes is gone. */
  function NextWorkers(w: World, a: Action): map<WorkerId, Worker>
    requires Enabled(w, a) && !OnLeases(a)
  {
    match a
    case ClaimOutbox(k, d, _) => w.workers[k := Worker(d, Claimed)]
    case LoadDispatch(k) =>
      var d := w.workers[k].dispatch;
      var readable := d in w.db.receipts && w.db.receipts[d].outbox.payload.Some?;
      MovedTo(w, k, if readable then Loaded else Giving(InvalidOutboxPayload))
    case Authorize(k, refusal) =>
      MovedTo(w, k, match refusal case None => Authorized case Some(why) => Giving(why))
    case StartRuntime(k, outcome) =>
      (match outcome
       case RunStarted(s) => MovedTo(w, k, Started(s))
       case NotConnected => MovedTo(w, k, Giving(RuntimeUnavailable))
       case Unclear => w.workers - {k})
    case AcknowledgeStart(k, _) =>
      var d, s := w.workers[k].dispatch, w.workers[k].stage.status;
      if IsQueued(w.db, d) && s != Done && s != Lost then MovedTo(w, k, Acked(s)) else w.workers - {k}
    case ObserveStart(k, _) => w.workers - {k}
    case GiveUp(k, _) => w.workers - {k}
    case CrashWorker(k) => w.workers - {k}
    case _ => w.workers
  }

  function NextStarts(w: World, a: Action): multiset<DispatchId>
    requires Enabled(w, a) && !OnLeases(a)
  {
    if a.StartRuntime? then w.starts + multiset{w.workers[a.worker].dispatch} else w.starts
  }

  function Next(w: World, a: Action): World
    requires Enabled(w, a)
  {
    if OnLeases(a) then NextCall(w, a)
    else World(NextTables(w, a), w.drawn, w.facts, w.calls, NextWorkers(w, a), NextStarts(w, a))
  }

  ghost predicate Step(w: World, a: Action, w': World) {
    Enabled(w, a) && w' == Next(w, a)
  }

  /** `ws[i]` becomes `ws[i + 1]` by `acts[i]`, from the empty tables. */
  ghost predicate IsRun(ws: seq<World>, acts: seq<Action>) {
    |ws| == |acts| + 1 && ws[0] == Initial()
    && forall i :: 0 <= i < |acts| ==> Step(ws[i], acts[i], ws[i + 1])
  }
}
