/**
 * The database tables behind leases and receipts, and the operations that update them
 * row by row.  Each method states its whole new state twice: by the fields it writes, and by
 * the transition function of DispatchReceipt that the interleaved protocol is built from.
 */
module CoordinationStore {
  import opened Wrappers
  import opened ContextLease
  import opened DispatchReceipt
  import opened RowChanges

  class Store {
    var leases: Leases
    var receipts: map<DispatchId, Receipt>

    constructor ()
      ensures leases == map[] && receipts == map[]
    {
      leases, receipts := map[], map[];
    }

    function State(): Db
      reads this
    {
      Db(leases, receipts)
    }

    // ---- leases: one guarded UPDATE each ----

    method CreateLease(c: ContextId, grant: Lease) returns (created: bool)
      modifies this`leases
      ensures created <==> c !in old(leases)
      ensures if created then OnlyRow(old(leases), leases, c) && c in leases && leases[c] == grant
              else leases == old(leases)
    {
      created := c !in leases;
      if created {
        leases := leases[c := grant];
      }
    }

    method RegrantLease(c: ContextId, grant: Lease, now: Time) returns (count: nat)
      modifies this`leases
      ensures count == if c in old(leases) && !Standing(old(leases)[c], now) then 1 else 0
      ensures if count == 1 then OnlyRow(old(leases), leases, c) && c in leases && leases[c] == grant
              else leases == old(leases)
    {
      count := 0;
      if c in leases {
        var row := leases[c];
        if row.releasedAt != None || row.expiresAt < now {
          leases := leases[c := grant];
          count := 1;
        }
      }
    }

    // ---- leases: whole calls, nobody interfering ----

    method AcquireContextLease(c: ContextId, drawn: Generation, holder: OrchestratorId, initiator: UserId,
                               run: RunId, ttl: int, horizon: Time, now: Time)
      returns (r: Result<Lease, LeaseError>)
      modifies this`leases
      ensures r.Ok? <==> now < horizon && (c in old(leases) ==> !Standing(old(leases)[c], now))
      ensures r.Ok? ==> c in leases && r.value == leases[c] && OnlyRow(old(leases), leases, c)
      ensures r.Ok? ==> GrantedTo(leases[c], drawn, holder, initiator, run, ttl, horizon, now)
      ensures r.Err? ==> leases == old(leases)
      ensures r.Err? ==> if horizon <= now then r.error == InvalidRequest
                         else r.error == HeldByOther(old(leases)[c])
    {
      if horizon <= now {
        return Err(InvalidRequest);
      }
      var grant := Grant(drawn, holder, initiator, run, ttl, horizon, now);
      var created := CreateLease(c, grant);
      if created {
        return Ok(grant);
      }
      var count := RegrantLease(c, grant, now);
      if count == 1 {
        return Ok(leases[c]);
      }
      return Err(HeldByOther(leases[c]));
    }

    method RenewContextLease(c: ContextId, g: Generation, run: RunId, caller: Caller, ttl: int, now: Time)
      returns (r: Result<Lease, LeaseError>)
      modifies this`leases
      ensures r.Ok? <==> Names(old(leases), c, g, run) && Standing(old(leases)[c], now)
                         && Entitled(old(leases)[c], caller)
      ensures r.Ok? ==> c in leases && r.value == leases[c] && OnlyRow(old(leases), leases, c)
      ensures r.Ok? ==> ExtendedTo(old(leases)[c], leases[c], ttl, now)
      ensures r.Err? ==> leases == old(leases)
      ensures r.Err? ==> r.error == if Names(old(leases), c, g, run) && Standing(old(leases)[c], now)
                                    then TransferDenied else NotHeld
    {
      var plan := PlanRenew(Read(leases, c), g, run, caller, ttl, now);
      if plan.Err? {
        return Err(plan.error);
      }
      var row := leases[c];
      if row.generation == g && row.run == run && row.releasedAt == None && row.expiresAt >= now
         && (caller.override || row.initiator == caller.user) {
        leases := leases[c := row.(expiresAt := plan.value)];
        return Ok(leases[c]);
      }
      return Err(NotHeld);
    }

    method TransferContextLease(c: ContextId, g: Generation, drawn: Generation, caller: Caller,
                                to: Recipient, ttl: int, now: Time)
      returns (r: Result<Lease, LeaseError>)
      modifies this`leases
      ensures r.Ok? <==> c in old(leases) && old(leases)[c].generation == g && Standing(old(leases)[c], now)
                         && Entitled(old(leases)[c], caller)
      ensures r.Ok? ==> c in leases && r.value == leases[c] && OnlyRow(old(leases), leases, c)
      ensures r.Ok? ==> HandedTo(old(leases)[c], leases[c], drawn, to, ttl, now)
      ensures r.Err? ==> leases == old(leases)
      ensures r.Err? ==> r.error == if c in old(leases) && old(leases)[c].generation == g && Standing(old(leases)[c], now)
                                    then TransferDenied else NotHeld
    {
      var plan := PlanTransfer(Read(leases, c), g, caller, ttl, now);
      if plan.Err? {
        return Err(plan.error);
      }
      var row := leases[c];
      if row.generation == g && row.releasedAt == None && row.expiresAt >= now
         && (caller.override || row.initiator == caller.user) {
        leases := leases[c := Lease(drawn, to.holder, to.initiator, to.run, now, plan.value, row.horizon, None)];
        return Ok(leases[c]);
      }
      return Err(NotHeld);
    }

    method ReleaseContextLease(c: ContextId, g: Generation, run: RunId, caller: Caller, now: Time)
      returns (r: Result<(), LeaseError>)
      modifies this`leases
      ensures r.Ok? <==> Names(old(leases), c, g, run) && old(leases)[c].releasedAt == None
                         && Entitled(old(leases)[c], caller)
      ensures r.Ok? ==> c in leases && ReleasedAt(old(leases)[c], leases[c], now) && OnlyRow(old(leases), leases, c)
      ensures r.Err? ==> leases == old(leases) && r.error == NotHeld
    {
      if c in leases {
        var row := leases[c];
        if row.generation == g && row.run == run && row.releasedAt == None
           && (caller.override || row.initiator == caller.user) {
          leases := leases[c := row.(releasedAt := Some(now))];
          return Ok(());
        }
      }
      return Err(NotHeld);
    }

    // ---- receipts ----

    /** `appendTransition`: moves the status, bumps the counter, inserts the event. */
    method AppendTransition(d: DispatchId, expected: set<Execution>, to: Execution, kind: EventKind, now: Time)
      returns (applied: bool)
      modifies this`receipts
      ensures applied <==> d in old(receipts) && old(receipts)[d].execution in expected
      ensures receipts == if applied then old(receipts)[d := Advance(old(receipts)[d], to, kind, now)] else old(receipts)
      ensures applied ==> receipts[d].execution == to && Logs(old(receipts)[d], receipts[d], kind, now)
                          && SameAdmission(old(receipts)[d], receipts[d]) && SameEffect(old(receipts)[d], receipts[d])
    {
      applied := false;
      if d in receipts && receipts[d].execution in expected {
        var row := receipts[d];
        row := row.(execution := to, counter := row.counter + 1);
        row := row.(events := row.events + [Event(row.counter, kind, now)]);
        receipts := receipts[d := row];
        applied := true;
      }
    }

    /** Binding by binding, each its own guarded UPDATE. */
    method ReleaseReceiptLeases(d: DispatchId, now: Time)
      requires d in receipts
      modifies this`leases
      ensures leases == ReleaseAll(old(leases), receipts[d].bindings, now)
      ensures ReleasesBound(old(leases), leases, receipts[d].bindings, now)
    {
      var bindings := receipts[d].bindings;
      var i := 0;
      assert leases == ReleaseAll(leases, bindings[..0], now);
      while i < |bindings|
        invariant 0 <= i <= |bindings|
        invariant leases == ReleaseAll(old(leases), bindings[..i], now)
      {
        var b := bindings[i];
        assert bindings[..i + 1] == bindings[..i] + [b];
        if b.context in leases && leases[b.context].generation == b.generation
           && leases[b.context].releasedAt == None {
          leases := leases[b.context := leases[b.context].(releasedAt := Some(now))];
        }
        assert leases == ReleaseAll(old(leases), bindings[..i + 1], now);
        i := i + 1;
      }
      assert bindings[..i] == bindings;
      ReleaseAllExactly(old(leases), bindings, now);
    }

    method AcceptDispatchReceipt(board: Board, d: DispatchId, q: Request, now: Time)
      returns (r: Result<Receipt, DispatchError>)
      modifies this`receipts
      ensures State() == Accept(old(State()), board, d, q, now)
      ensures r.Ok? <==> OneBindingEach(q) && TablesAgree(board, q) && HoldsTargets(leases, q, now)
                         && !RunIsTaken(old(receipts), d, q.run)
      ensures r.Ok? ==> NewlyAdmitted(r.value, q, now) && receipts == old(receipts)[d := r.value]
      ensures r.Err? ==> receipts == old(receipts)
      ensures r.Err? ==> r.error == if !OneBindingEach(q) || !TablesAgree(board, q) then DispatchInvalid
                                    else if !HoldsTargets(leases, q, now) then LeaseNotHeld else AlreadyExists
    {
      AdmissionIsRefusedExactly(State(), board, d, q, now);
      var targets := Elements(q.targets);
      if targets == {} || |targets| != |q.bindings| {
        return Err(DispatchInvalid);
      }
      if !BoardAgrees(board, q) {
        return Err(DispatchInvalid);
      }
      var admitted := AdmittedMap(q.bindings);
      if exists c :: c in targets && !(c in leases && leases[c].run == q.run) {
        return Err(LeaseNotHeld);
      }
      if exists c :: c in targets &&
           (leases[c].releasedAt != None || leases[c].expiresAt < now
            || !(c in admitted && admitted[c] == leases[c].generation)) {
        return Err(LeaseNotHeld);
      }
      assert OwnsEveryTarget(leases, q, now);
      if d in receipts || exists e :: e in receipts && receipts[e].run == q.run {
        return Err(AlreadyExists);
      }
      receipts := receipts[d := NewReceipt(q, now)];
      return Ok(receipts[d]);
    }

    method ClaimDispatchOutbox(d: DispatchId, now: Time) returns (claimed: bool)
      modifies this`receipts
      ensures claimed <==> d in old(receipts) && old(receipts)[d].outbox.state == Waiting
      ensures claimed ==> d in receipts && receipts == old(receipts)[d := receipts[d]]
                          && ClaimedAt(old(receipts)[d], receipts[d], now)
      ensures State() == if claimed then Claim(old(State()), d, now) else old(State())
    {
      claimed := false;
      if d in receipts && receipts[d].outbox.state == Waiting {
        var row := receipts[d];
        receipts := receipts[d := row.(outbox := row.outbox.(state := Sending, attemptStartedAt := Some(now)))];
        claimed := true;
      }
    }

    method AcknowledgeDispatchRuntime(d: DispatchId, s: RuntimeStatus, now: Time) returns (applied: bool)
      modifies this
      ensures applied <==> d in old(receipts) && old(receipts)[d].execution == Queued
      ensures State() == Acknowledge(old(State()), d, s, now)
      ensures !applied ==> receipts == old(receipts) && leases == old(leases)
      ensures applied ==> receipts == old(receipts)[d := receipts[d]] && AcknowledgedWith(old(receipts)[d], receipts[d], s, now)
      ensures applied ==> if s == Lost then ReleasesBound(old(leases), leases, old(receipts)[d].bindings, now)
                          else leases == old(leases)
    {
      var to := AcknowledgedStatus(s);
      applied := AppendTransition(d, {Queued}, to, AcknowledgedAs(to), now);
      if !applied {
        return;
      }
      var row := receipts[d].(acknowledgedAt := Some(now), lastObservedAt := Some(now),
                              livenessDeadline := now + LIVENESS_WINDOW_MS);
      if IsTerminal(to) {
        row := row.(executionTerminalAt := Some(now));
      }
      if row.outbox.state == Sending {
        row := row.(outbox := row.outbox.(state := Delivered, payload := None, completedAt := Some(now)));
      }
      receipts := receipts[d := row];
      if to == OutcomeUnknown {
        ReleaseReceiptLeases(d, now);
      }
      assert row == AcknowledgedReceipt(old(receipts)[d], s, now);
    }

    method FailDispatchBeforeRuntimeAck(d: DispatchId, why: Reason, now: Time) returns (applied: bool)
      modifies this
      ensures applied <==> d in old(receipts) && old(receipts)[d].execution == Queued
      ensures State() == FailBeforeAck(old(State()), d, why, now)
      ensures !applied ==> receipts == old(receipts) && leases == old(leases)
      ensures applied ==> receipts == old(receipts)[d := receipts[d]] && FailedFor(old(receipts)[d], receipts[d], why, now)
      ensures applied ==> ReleasesBound(old(leases), leases, old(receipts)[d].bindings, now)
    {
      applied := AppendTransition(d, {Queued}, Failed, FailedToStart(why), now);
      if !applied {
        return;
      }
      var row := receipts[d].(executionTerminalAt := Some(now), executionReason := Some(why),
                              effect := EffectFailed, effectTerminalAt := Some(now));
      if row.outbox.state in {Waiting, Sending} {
        row := row.(outbox := row.outbox.(state := Undeliverable, payload := None, completedAt := Some(now)));
      }
      receipts := receipts[d := row];
      ReleaseReceiptLeases(d, now);
      assert row == FailedReceipt(old(receipts)[d], why, now);
    }

    method ObserveDispatchRuntime(d: DispatchId, s: RuntimeStatus, now: Time) returns (applied: bool)
      modifies this
      ensures applied <==> d in old(receipts)
                           && old(receipts)[d].execution in {RuntimeAcknowledged, Running, Blocked}
      ensures State() == Observe(old(State()), d, s, now)
      ensures !applied ==> receipts == old(receipts) && leases == old(leases)
      ensures applied ==> receipts == old(receipts)[d := receipts[d]] && ObservedWith(old(receipts)[d], receipts[d], s, now)
      ensures applied ==> if s == Lost then ReleasesBound(old(leases), leases, old(receipts)[d].bindings, now)
                          else leases == old(leases)
    {
      var to := ObservedStatus(s);
      applied := AppendTransition(d, {RuntimeAcknowledged, Running, Blocked}, to, ObservedAs(to), now);
      if !applied {
        return;
      }
      var row := receipts[d].(lastObservedAt := Some(now), livenessDeadline := now + LIVENESS_WINDOW_MS);
      if IsTerminal(to) {
        row := row.(executionTerminalAt := Some(now));
      }
      receipts := receipts[d := row];
      if to == OutcomeUnknown {
        ReleaseReceiptLeases(d, now);
      }
      assert row == ObservedReceipt(old(receipts)[d], s, now);
    }

    method ReconcileDispatchReceipt(d: DispatchId, now: Time) returns (found: bool)
      modifies this
      ensures found == (d in old(receipts))
      ensures State() == Reconcile(old(State()), d, now)
      ensures !found ==> receipts == old(receipts) && leases == old(leases)
      ensures found ==> receipts == old(receipts)[d := receipts[d]] && ReconciledAt(old(receipts)[d], receipts[d], now)
      ensures found ==> if LateExecution(old(receipts)[d], now) || LateEffect(old(receipts)[d], now)
                        then ReleasesBound(old(leases), leases, old(receipts)[d].bindings, now)
                        else leases == old(leases)
    {
      found := d in receipts;
      if !found {
        return;
      }
      ghost var was := receipts[d];
      var moved := ReconcileExecutionStep(d, now);
      if moved {
        ReleaseReceiptLeases(d, now);
      }
      var row := receipts[d];
      if row.effect == Pending && row.effectDeadline <= now {
        row := row.(effect := EffectFailed, effectTerminalAt := Some(now), counter := row.counter + 1);
        row := row.(events := row.events + [Event(row.counter, EffectDeadlineElapsed, now)]);
        receipts := receipts[d := row];
        ReleaseReceiptLeases(d, now);
        ReleaseAllTwice(old(leases), row.bindings, now);
      }
      assert row == ReconcileEffect(ReconcileExecution(was, now), now);
      ReconcileExactly(was, now);
      ReleaseAllExactly(old(leases), was.bindings, now);
      assert leases == Reconcile(old(State()), d, now).leases;
      assert receipts == Reconcile(old(State()), d, now).receipts;
    }

    /** The first half of a reconciliation: an overdue execution becomes unknown. */
    method ReconcileExecutionStep(d: DispatchId, now: Time) returns (moved: bool)
      requires d in receipts
      modifies this`receipts
      ensures moved <==> StartOverdue(old(receipts)[d], now) || LivenessOverdue(old(receipts)[d], now)
      ensures receipts == old(receipts)[d := ReconcileExecution(old(receipts)[d], now)]
    {
      moved := false;
      var row := receipts[d];
      if row.execution == Queued && row.startDeadline <= now {
        moved := AppendTransition(d, {Queued}, OutcomeUnknown, BecameUnknown(StartDeadlineElapsed), now);
        row := receipts[d].(executionTerminalAt := Some(now), executionReason := Some(StartDeadlineElapsed));
        if row.outbox.state in {Waiting, Sending} {
          row := row.(outbox := row.outbox.(state := DeliveryUnknown, payload := None, completedAt := Some(now)));
        }
        receipts := receipts[d := row];
      } else if row.execution in {RuntimeAcknowledged, Running, Blocked} && row.livenessDeadline <= now {
        moved := AppendTransition(d, {RuntimeAcknowledged, Running, Blocked}, OutcomeUnknown,
                                  BecameUnknown(LivenessDeadlineElapsed), now);
        row := receipts[d].(executionTerminalAt := Some(now), executionReason := Some(LivenessDeadlineElapsed));
        receipts := receipts[d := row];
      }
    }

    method CommitDispatchBoardEffect(board: Board, drawing: DrawingId, d: DispatchId, run: RunId,
                                     token: Token, version: int, now: Time)
      returns (r: Result<Receipt, DispatchError>)
      modifies this
      ensures State() == Commit(old(State()), board, drawing, d, run, token, version, now)
      ensures r.Ok? <==> EffectIsOpen(old(receipts), board, drawing, d, run, token)
                         && EveryBoundLive(old(leases), old(receipts)[d].bindings, run, now)
      ensures r.Ok? ==> receipts == old(receipts)[d := r.value] && CommittedWith(old(receipts)[d], r.value, version, now)
                        && ReleasesBound(old(leases), leases, old(receipts)[d].bindings, now)
      ensures r.Err? ==> receipts == old(receipts) && leases == old(leases)
      ensures r.Err? ==> r.error == if EffectIsOpen(old(receipts), board, drawing, d, run, token) then LeaseNotHeld
                                    else EffectNotAllowed
    {
      CommitIsRefusedExactly(State(), board, drawing, d, run, token, now);
      if d !in receipts {
        return Err(EffectNotAllowed);
      }
      var row := receipts[d];
      if row.drawing != drawing || row.run != run || row.effect != Pending {
        return Err(EffectNotAllowed);
      }
      if !(run in board.mounts && board.mounts[run].token == token) {
        return Err(EffectNotAllowed);
      }
      var i := 0;
      while i < |row.bindings|
        invariant 0 <= i <= |row.bindings|
        invariant HoldsEveryLease(leases, row.bindings[..i], run, now)
      {
        var b := row.bindings[i];
        if b.context !in leases {
          return Err(LeaseNotHeld);
        }
        var lease := leases[b.context];
        if lease.generation != b.generation || lease.run != run || lease.releasedAt != None || lease.expiresAt < now {
          assert !HoldsLease(leases, row.bindings[i], run, now);
          return Err(LeaseNotHeld);
        }
        i := i + 1;
      }
      row := row.(effect := Committed, effectTerminalAt := Some(now), evidence := Some(version), counter := row.counter + 1);
      row := row.(events := row.events + [Event(row.counter, EffectCommitted(version), now)]);
      receipts := receipts[d := row];
      ReleaseReceiptLeases(d, now);
      return Ok(row);
    }
  }

  method AdmittedMap(bindings: seq<Binding>) returns (m: map<ContextId, Generation>)
    ensures m == Admitted(bindings)
  {
    m := map[];
    var i := 0;
    while i < |bindings|
      invariant 0 <= i <= |bindings|
      invariant m == Admitted(bindings[..i])
    {
      assert bindings[..i + 1][..i] == bindings[..i];
      m := m[bindings[i].context := bindings[i].generation];
      i := i + 1;
    }
    assert bindings[..i] == bindings;
  }

  lemma ReleaseAllTwice(rows: Leases, bindings: seq<Binding>, now: Time)
    ensures ReleaseAll(ReleaseAll(rows, bindings, now), bindings, now) == ReleaseAll(rows, bindings, now)
  {
  }
}
