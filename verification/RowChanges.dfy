/**
 * What the writes to leases and receipts promise, field by field.  Contracts and theorems are
 * stated with these; no operation and no transition function is computed from them.
 */
module RowChanges {
  import opened Wrappers
  import opened ContextLease
  import opened DispatchReceipt

  // ---- lease rows ----

  /** No row but that of `c` differs. */
  ghost predicate OnlyRow(rows: Leases, rows': Leases, c: ContextId) {
    forall e :: e != c ==> (e in rows <==> e in rows') && (e in rows ==> rows'[e] == rows[e])
  }

  ghost predicate Standing(row: Lease, now: Time) {
    row.releasedAt == None && now <= row.expiresAt
  }

  /** The row of `c` carries generation `g` of run `run`. */
  ghost predicate Names(rows: Leases, c: ContextId, g: Generation, run: RunId) {
    c in rows && rows[c].generation == g && rows[c].run == run
  }

  ghost predicate Entitled(row: Lease, caller: Caller) {
    caller.override || caller.user == row.initiator
  }

  ghost predicate Capped(expiresAt: Time, now: Time, ttl: int, horizon: Time) {
    expiresAt == if now + ttl <= horizon then now + ttl else horizon
  }

  /** The row a caller asked for when it acquired. */
  ghost predicate GrantedTo(row: Lease, drawn: Generation, holder: OrchestratorId, initiator: UserId,
                            run: RunId, ttl: int, horizon: Time, now: Time) {
    && row.generation == drawn && row.holder == holder && row.initiator == initiator && row.run == run
    && row.acquiredAt == now && Capped(row.expiresAt, now, ttl, horizon)
    && row.horizon == horizon && row.releasedAt == None
  }

  /** Only the expiry moves, and never past the horizon. */
  ghost predicate ExtendedTo(row: Lease, row': Lease, ttl: int, now: Time) {
    && row'.generation == row.generation && row'.holder == row.holder && row'.initiator == row.initiator
    && row'.run == row.run && row'.acquiredAt == row.acquiredAt && row'.horizon == row.horizon
    && row'.releasedAt == row.releasedAt && Capped(row'.expiresAt, now, ttl, row.horizon)
  }

  /** A fresh generation for the recipient, under the horizon of the one it replaces. */
  ghost predicate HandedTo(row: Lease, row': Lease, drawn: Generation, to: Recipient, ttl: int, now: Time) {
    && row'.generation == drawn && row'.holder == to.holder && row'.initiator == to.initiator
    && row'.run == to.run && row'.acquiredAt == now && row'.horizon == row.horizon
    && row'.releasedAt == row.releasedAt && Capped(row'.expiresAt, now, ttl, row.horizon)
  }

  ghost predicate ReleasedAt(row: Lease, row': Lease, now: Time) {
    && row'.generation == row.generation && row'.holder == row.holder && row'.initiator == row.initiator
    && row'.run == row.run && row'.acquiredAt == row.acquiredAt && row'.expiresAt == row.expiresAt
    && row'.horizon == row.horizon && row.releasedAt == None && row'.releasedAt == Some(now)
  }

  /** The rows now carrying a bound generation unreleased are released; no other row moves. */
  ghost predicate ReleasesBound(rows: Leases, rows': Leases, bindings: seq<Binding>, now: Time) {
    && rows'.Keys == rows.Keys
    && forall c :: c in rows ==>
         if rows[c].releasedAt == None && Binding(c, rows[c].generation) in bindings
         then ReleasedAt(rows[c], rows'[c], now)
         else rows'[c] == rows[c]
  }

  lemma ReleaseAllExactly(rows: Leases, bindings: seq<Binding>, now: Time)
    ensures ReleasesBound(rows, ReleaseAll(rows, bindings, now), bindings, now)
  {
  }

  // ---- receipts ----

  /** The receipt took status `to`, and one event of `kind` under the next number. */
  ghost predicate Logs(r: Receipt, r': Receipt, kind: EventKind, now: Time) {
    r'.counter == r.counter + 1 && r'.events == r.events + [Event(r.counter + 1, kind, now)]
  }

  /** What identifies the receipt and when it must start or take effect: never written again. */
  ghost predicate SameAdmission(r: Receipt, r': Receipt) {
    && r'.drawing == r.drawing && r'.run == r.run && r'.bindings == r.bindings
    && r'.startDeadline == r.startDeadline && r'.effectDeadline == r.effectDeadline
  }

  ghost predicate SameEffect(r: Receipt, r': Receipt) {
    r'.effect == r.effect && r'.effectTerminalAt == r.effectTerminalAt && r'.evidence == r.evidence
  }

  ghost predicate SameExecution(r: Receipt, r': Receipt) {
    && r'.execution == r.execution && r'.executionTerminalAt == r.executionTerminalAt
    && r'.executionReason == r.executionReason && r'.acknowledgedAt == r.acknowledgedAt
    && r'.lastObservedAt == r.lastObservedAt && r'.livenessDeadline == r.livenessDeadline
  }

  /** The payload is dropped with the delivery. */
  ghost predicate DeliveredAs(o: Outbox, o': Outbox, state: OutboxState, now: Time) {
    o'.state == state && o'.payload == None && o'.completedAt == Some(now)
    && o'.attemptStartedAt == o.attemptStartedAt
  }

  ghost predicate NewlyAdmitted(r: Receipt, q: Request, now: Time) {
    && r.drawing == q.drawing && r.run == q.run && r.bindings == q.bindings
    && r.execution == Queued && r.effect == Pending
    && r.acknowledgedAt == None && r.lastObservedAt == None && r.executionTerminalAt == None
    && r.executionReason == None && r.effectTerminalAt == None && r.evidence == None
    && r.startDeadline == now + 30_000 && r.livenessDeadline == now + 90_000
    && r.effectDeadline == q.effectDeadline
    && r.counter == 1 && r.events == [Event(1, DispatchAccepted, now)]
    && r.outbox.state == Waiting && r.outbox.payload == Some(q.payload)
    && r.outbox.attemptStartedAt == None && r.outbox.completedAt == None
  }

  ghost predicate ClaimedAt(r: Receipt, r': Receipt, now: Time) {
    && SameAdmission(r, r') && SameEffect(r, r') && SameExecution(r, r')
    && r'.counter == r.counter && r'.events == r.events
    && r'.outbox.state == Sending && r'.outbox.attemptStartedAt == Some(now)
    && r'.outbox.payload == r.outbox.payload && r'.outbox.completedAt == r.outbox.completedAt
  }

  ghost predicate AcknowledgedWith(r: Receipt, r': Receipt, s: RuntimeStatus, now: Time) {
    && r'.execution == (match s case Done => Succeeded case Lost => OutcomeUnknown
                        case Working => RuntimeAcknowledged case Idle => RuntimeAcknowledged
                        case Stuck => RuntimeAcknowledged)
    && SameAdmission(r, r') && SameEffect(r, r') && Logs(r, r', AcknowledgedAs(r'.execution), now)
    && r'.acknowledgedAt == Some(now) && r'.lastObservedAt == Some(now)
    && r'.livenessDeadline == now + 60_000 && r'.executionReason == r.executionReason
    && r'.executionTerminalAt == (if s == Done || s == Lost then Some(now) else r.executionTerminalAt)
    && if r.outbox.state == Sending then DeliveredAs(r.outbox, r'.outbox, Delivered, now)
       else r'.outbox == r.outbox
  }

  ghost predicate ObservedWith(r: Receipt, r': Receipt, s: RuntimeStatus, now: Time) {
    && r'.execution == (match s case Done => Succeeded case Lost => OutcomeUnknown
                        case Stuck => Blocked case Working => Running case Idle => Running)
    && SameAdmission(r, r') && SameEffect(r, r') && Logs(r, r', ObservedAs(r'.execution), now)
    && r'.acknowledgedAt == r.acknowledgedAt && r'.lastObservedAt == Some(now)
    && r'.livenessDeadline == now + 60_000 && r'.executionReason == r.executionReason
    && r'.executionTerminalAt == (if s == Done || s == Lost then Some(now) else r.executionTerminalAt)
    && r'.outbox == r.outbox
  }

  /** The effect is overwritten whatever it was. */
  ghost predicate FailedFor(r: Receipt, r': Receipt, why: Reason, now: Time) {
    && SameAdmission(r, r') && Logs(r, r', FailedToStart(why), now)
    && r'.execution == Failed && r'.executionTerminalAt == Some(now) && r'.executionReason == Some(why)
    && r'.acknowledgedAt == r.acknowledgedAt && r'.lastObservedAt == r.lastObservedAt
    && r'.livenessDeadline == r.livenessDeadline
    && r'.effect == EffectFailed && r'.effectTerminalAt == Some(now) && r'.evidence == r.evidence
    && if r.outbox.state == Waiting || r.outbox.state == Sending
       then DeliveredAs(r.outbox, r'.outbox, Undeliverable, now)
       else r'.outbox == r.outbox
  }

  ghost predicate CommittedWith(r: Receipt, r': Receipt, version: int, now: Time) {
    && SameAdmission(r, r') && SameExecution(r, r') && Logs(r, r', EffectCommitted(version), now)
    && r'.effect == Committed && r'.effectTerminalAt == Some(now) && r'.evidence == Some(version)
    && r'.outbox == r.outbox
  }

  /** Neither started nor heard of in time. */
  ghost predicate LateExecution(r: Receipt, now: Time) {
    || (r.execution == Queued && r.startDeadline <= now)
    || ((r.execution == RuntimeAcknowledged || r.execution == Running || r.execution == Blocked)
        && r.livenessDeadline <= now)
  }

  ghost predicate LateEffect(r: Receipt, now: Time) {
    r.effect == Pending && r.effectDeadline <= now
  }

  ghost predicate LapsedExecution(r: Receipt, r': Receipt, now: Time) {
    var why := if r.execution == Queued then StartDeadlineElapsed else LivenessDeadlineElapsed;
    && SameAdmission(r, r') && SameEffect(r, r') && Logs(r, r', BecameUnknown(why), now)
    && r'.execution == OutcomeUnknown && r'.executionTerminalAt == Some(now) && r'.executionReason == Some(why)
    && r'.acknowledgedAt == r.acknowledgedAt && r'.lastObservedAt == r.lastObservedAt
    && r'.livenessDeadline == r.livenessDeadline
    && if r.execution == Queued && (r.outbox.state == Waiting || r.outbox.state == Sending)
       then DeliveredAs(r.outbox, r'.outbox, DeliveryUnknown, now)
       else r'.outbox == r.outbox
  }

  ghost predicate LapsedEffect(r: Receipt, r': Receipt, now: Time) {
    && SameAdmission(r, r') && SameExecution(r, r') && Logs(r, r', EffectDeadlineElapsed, now)
    && r'.effect == EffectFailed && r'.effectTerminalAt == Some(now) && r'.evidence == r.evidence
    && r'.outbox == r.outbox
  }

  ghost predicate ExecutionHalf(r: Receipt, r': Receipt, now: Time) {
    if LateExecution(r, now) then LapsedExecution(r, r', now) else r' == r
  }

  ghost predicate EffectHalf(r: Receipt, r': Receipt, now: Time) {
    if LateEffect(r, now) then LapsedEffect(r, r', now) else r' == r
  }

  /** The execution half, then the effect half, each exactly when it is late. */
  ghost predicate ReconciledAt(r: Receipt, r': Receipt, now: Time) {
    exists m :: ExecutionHalf(r, m, now) && EffectHalf(m, r', now)
  }

  // ---- admission and commit ----

  /** Who may ask, about what, and from where: the rows of the other tables agree with the request. */
  ghost predicate TablesAgree(board: Board, q: Request) {
    && q.origin in board.threads && q.publicThread in board.threads && q.run in board.mounts
    && var origin := board.threads[q.origin];
       var public := board.threads[q.publicThread];
       var mount := board.mounts[q.run];
    && origin.drawing == q.drawing && origin.orchestrator
    && (origin.audience == DrawingAudience
        || (origin.audience == PrivateAudience && origin.owner == Some(q.initiator)))
    && public.drawing == q.drawing && public.orchestrator && public.audience == DrawingAudience && public.owner == None
    && mount.drawing == q.drawing && mount.revision == q.revision && mount.audience == DrawingAudience
    && (forall c :: multiset(mount.allowed)[c] == if c in q.targets then 1 else 0)
    && (forall c :: c in q.allowed <==> c in q.targets)
    && (forall c :: c in q.targets ==> c in board.contexts && board.contexts[c] == q.drawing)
  }

  /** One binding for each target. */
  ghost predicate OneBindingEach(q: Request) {
    q.targets != [] && |q.bindings| == |set c | c in q.targets|
  }

  /** The row of every target is live, held by the run, and bound by the generation it carries. */
  ghost predicate HoldsTargets(rows: Leases, q: Request, now: Time) {
    forall c :: c in q.targets ==>
      && c in rows && rows[c].run == q.run && Standing(rows[c], now)
      && exists i :: Binds(q.bindings, i, c, rows[c].generation)
  }

  /** `i` is the last binding of `c`, and gives generation `g`. */
  ghost predicate Binds(bindings: seq<Binding>, i: int, c: ContextId, g: Generation) {
    0 <= i < |bindings| && bindings[i].context == c && bindings[i].generation == g
    && forall j :: i < j < |bindings| ==> bindings[j].context != c
  }

  ghost predicate RunIsTaken(receipts: map<DispatchId, Receipt>, d: DispatchId, run: RunId) {
    d in receipts || exists e :: e in receipts && receipts[e].run == run
  }

  /** A pending effect of this drawing and run, asked for with the capability of the run's mount. */
  ghost predicate EffectIsOpen(receipts: map<DispatchId, Receipt>, board: Board, drawing: DrawingId, d: DispatchId,
                               run: RunId, token: Token) {
    && d in receipts && receipts[d].drawing == drawing && receipts[d].run == run && receipts[d].effect == Pending
    && run in board.mounts && board.mounts[run].token == token
  }

  ghost predicate EveryBoundLive(rows: Leases, bindings: seq<Binding>, run: RunId, now: Time) {
    forall b :: b in bindings ==>
      b.context in rows && rows[b.context].generation == b.generation && rows[b.context].run == run
      && Standing(rows[b.context], now)
  }

  lemma {:induction false} AdmittedIsTheLastBinding(bindings: seq<Binding>, c: ContextId, g: Generation)
    ensures (c in Admitted(bindings) && Admitted(bindings)[c] == g) <==> exists i :: Binds(bindings, i, c, g)
    decreases |bindings|
  {
    if bindings != [] {
      var n := |bindings| - 1;
      var init, last := bindings[..n], bindings[n];
      AdmittedIsTheLastBinding(init, c, g);
      if last.context == c {
        assert forall i :: Binds(bindings, i, c, g) ==> i == n;
        assert last.generation == g ==> Binds(bindings, n, c, g);
      } else {
        assert forall i :: Binds(bindings, i, c, g) <==> Binds(init, i, c, g);
      }
    }
  }

  lemma MultisetOfSet<T>(s: seq<T>, t: set<T>)
    ensures multiset(s) == multiset(t) <==> forall c :: multiset(s)[c] == if c in t then 1 else 0
  {
    assert forall c :: multiset(t)[c] == if c in t then 1 else 0;
  }

  lemma SameElements<T>(a: seq<T>, b: seq<T>)
    ensures Elements(a) == Elements(b) <==> forall c :: c in a <==> c in b
  {
    assert forall c :: (c in a <==> c in Elements(a)) && (c in b <==> c in Elements(b));
  }

  lemma TablesAgreeExactly(board: Board, q: Request)
    ensures BoardAgrees(board, q) <==> TablesAgree(board, q)
  {
    if q.run in board.mounts {
      MultisetOfSet(board.mounts[q.run].allowed, Elements(q.targets));
    }
    SameElements(q.allowed, q.targets);
  }

  lemma HoldsTargetsExactly(rows: Leases, q: Request, now: Time)
    ensures OwnsEveryTarget(rows, q, now) <==> HoldsTargets(rows, q, now)
  {
    forall c | c in rows {
      AdmittedIsTheLastBinding(q.bindings, c, rows[c].generation);
    }
  }

  /** Each refusal in its own case, in the order the checks are made. */
  lemma AdmissionIsRefusedExactly(db: Db, board: Board, d: DispatchId, q: Request, now: Time)
    ensures RefuseAccept(db, board, d, q, now)
            == if !OneBindingEach(q) || !TablesAgree(board, q) then Some(DispatchInvalid)
               else if !HoldsTargets(db.leases, q, now) then Some(LeaseNotHeld)
               else if RunIsTaken(db.receipts, d, q.run) then Some(AlreadyExists)
               else None
  {
    assert (set c | c in q.targets) == Elements(q.targets);
    assert q.targets != [] ==> q.targets[0] in Elements(q.targets);
    TablesAgreeExactly(board, q);
    HoldsTargetsExactly(db.leases, q, now);
  }

  lemma CommitIsRefusedExactly(db: Db, board: Board, drawing: DrawingId, d: DispatchId, run: RunId, token: Token, now: Time)
    ensures RefuseCommit(db, board, drawing, d, run, token, now)
            == if !EffectIsOpen(db.receipts, board, drawing, d, run, token) then Some(EffectNotAllowed)
               else if !EveryBoundLive(db.leases, db.receipts[d].bindings, run, now) then Some(LeaseNotHeld)
               else None
  {
    if d in db.receipts {
      BoundLiveExactly(db.leases, db.receipts[d].bindings, run, now);
    }
  }

  lemma BoundLiveExactly(rows: Leases, bindings: seq<Binding>, run: RunId, now: Time)
    ensures HoldsEveryLease(rows, bindings, run, now) <==> EveryBoundLive(rows, bindings, run, now)
  {
    if HoldsEveryLease(rows, bindings, run, now) {
      forall b | b in bindings
        ensures b.context in rows && rows[b.context].generation == b.generation && rows[b.context].run == run
                && Standing(rows[b.context], now)
      {
        var i :| 0 <= i < |bindings| && bindings[i] == b;
        assert HoldsLease(rows, bindings[i], run, now);
      }
    }
  }

  lemma ReconcileExactly(r: Receipt, now: Time)
    ensures ReconciledAt(r, ReconcileEffect(ReconcileExecution(r, now), now), now)
  {
    var m := ReconcileExecution(r, now);
    assert ExecutionHalf(r, m, now) && EffectHalf(m, ReconcileEffect(m, now), now);
  }

  lemma AcknowledgesExactly(r: Receipt, s: RuntimeStatus, now: Time)
    ensures AcknowledgedWith(r, AcknowledgedReceipt(r, s, now), s, now)
  {
  }

  lemma ObservesExactly(r: Receipt, s: RuntimeStatus, now: Time)
    ensures ObservedWith(r, ObservedReceipt(r, s, now), s, now)
  {
  }

  lemma FailsExactly(r: Receipt, why: Reason, now: Time)
    ensures FailedFor(r, FailedReceipt(r, why, now), why, now)
  {
  }

  lemma CommitsExactly(r: Receipt, version: int, now: Time)
    ensures CommittedWith(r, CommittedReceipt(r, version, now), version, now)
  {
  }
}
