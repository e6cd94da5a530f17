/**
 * Where every lease row of a run comes from: each write of a row is traced back to the request
 * that began its call, and stated by the fields the request asked for.
 */
module LeaseHistory {
  import opened Wrappers
  import opened ContextLease
  import opened DispatchReceipt
  import opened RowChanges
  import opened DispatchProtocol
  import opened DispatchInvariants
  import opened DispatchInduction
  import opened DispatchSafety

  // ---- requests and the calls they begin ----

  /** Action `b` taken at `w` began the call `k`, which now stands as `call`. */
  ghost predicate Begins(w: World, b: Action, k: CallId, call: Call) {
    match call
    case Acquiring(c, grant, _) =>
      && b.BeginAcquire? && b.call == k && b.context == c && b.now < b.horizon
      && GrantedTo(grant, b.drawn, b.holder, b.initiator, b.run, b.ttl, b.horizon, b.now)
    case Renewing(c, g, run, caller, expiresAt, now) =>
      && b.ReadForRenew? && b.call == k && b.context == c && b.generation == g && b.run == run
      && b.caller == caller && b.now == now
      && Names(w.db.leases, c, g, run) && Standing(w.db.leases[c], now) && Entitled(w.db.leases[c], caller)
      && Capped(expiresAt, now, b.ttl, w.db.leases[c].horizon)
    case Transferring(c, g, caller, drawn, to, expiresAt, now) =>
      && b.ReadForTransfer? && b.call == k && b.context == c && b.generation == g
      && b.caller == caller && b.drawn == drawn && b.to == to && b.now == now
      && c in w.db.leases && w.db.leases[c].generation == g && Standing(w.db.leases[c], now)
      && Entitled(w.db.leases[c], caller)
      && Capped(expiresAt, now, b.ttl, w.db.leases[c].horizon)
  }

  ghost predicate BegunAt(ws: seq<World>, acts: seq<Action>, i: int, j: nat, k: CallId, call: Call) {
    0 <= i < j && i < |acts| && i < |ws| && Begins(ws[i], acts[i], k, call)
  }

  lemma CallsComeFromRequests(w: World, a: Action, w': World, k: CallId)
    requires Step(w, a, w') && k in w'.calls
    ensures Begins(w, a, k, w'.calls[k])
            || (k in w.calls && (w'.calls[k] == w.calls[k]
                || (w.calls[k].Acquiring? && w'.calls[k] == w.calls[k].(creating := false))))
  {
    if !OnLeases(a) {
      OtherFieldsUntouched(w, a);
    }
  }

  lemma StillBegun(w: World, b: Action, k: CallId, call: Call, call': Call)
    requires Begins(w, b, k, call)
    requires call' == call || (call.Acquiring? && call' == call.(creating := false))
    ensures Begins(w, b, k, call')
  {
  }

  lemma {:induction false} EveryCallWasBegun(ws: seq<World>, acts: seq<Action>, j: nat, k: CallId)
    requires IsRun(ws, acts) && j < |ws| && k in ws[j].calls
    ensures exists i :: BegunAt(ws, acts, i, j, k, ws[j].calls[k])
  {
    if j > 0 {
      var n := j - 1;
      assert Step(ws[n], acts[n], ws[n + 1]);
      CallsComeFromRequests(ws[n], acts[n], ws[j], k);
      if Begins(ws[n], acts[n], k, ws[j].calls[k]) {
        assert BegunAt(ws, acts, n, j, k, ws[j].calls[k]);
      } else {
        EveryCallWasBegun(ws, acts, n, k);
        var i :| BegunAt(ws, acts, i, n, k, ws[n].calls[k]);
        StillBegun(ws[i], acts[i], k, ws[n].calls[k], ws[j].calls[k]);
        assert BegunAt(ws, acts, i, j, k, ws[j].calls[k]);
      }
    }
  }

  // ---- writes, in terms of the request ----

  /** A first grant: exactly when the Context has no row. */
  ghost predicate CreatesAsAsked(b: Action, rows: Leases, rows': Leases)
    requires b.BeginAcquire?
  {
    if b.context in rows then rows' == rows
    else OnlyRow(rows, rows', b.context) && b.context in rows'
         && GrantedTo(rows'[b.context], b.drawn, b.holder, b.initiator, b.run, b.ttl, b.horizon, b.now)
  }

  /** A grant over an old row: exactly when that row no longer stands at the request's clock. */
  ghost predicate RegrantsAsAsked(b: Action, rows: Leases, rows': Leases)
    requires b.BeginAcquire?
  {
    if b.context !in rows || Standing(rows[b.context], b.now) then rows' == rows
    else OnlyRow(rows, rows', b.context) && b.context in rows'
         && GrantedTo(rows'[b.context], b.drawn, b.holder, b.initiator, b.run, b.ttl, b.horizon, b.now)
  }

  /** A renewal: exactly when the named generation of that run still stands and the caller may act. */
  ghost predicate RenewsAsAsked(b: Action, rows: Leases, rows': Leases)
    requires b.ReadForRenew?
  {
    if Names(rows, b.context, b.generation, b.run) && Standing(rows[b.context], b.now)
       && Entitled(rows[b.context], b.caller)
    then OnlyRow(rows, rows', b.context) && b.context in rows'
         && ExtendedTo(rows[b.context], rows'[b.context], b.ttl, b.now)
    else rows' == rows
  }

  /** A transfer: exactly when the named generation still stands and the caller may act; to whom it says. */
  ghost predicate TransfersAsAsked(b: Action, rows: Leases, rows': Leases)
    requires b.ReadForTransfer?
  {
    if b.context in rows && rows[b.context].generation == b.generation && Standing(rows[b.context], b.now)
       && Entitled(rows[b.context], b.caller)
    then OnlyRow(rows, rows', b.context) && b.context in rows'
         && HandedTo(rows[b.context], rows'[b.context], b.drawn, b.to, b.ttl, b.now)
    else rows' == rows
  }

  /** Action `a` is the write of the call that `b` began, and does to the rows what `b` asked for. */
  ghost predicate AnswersRequest(b: Action, a: Action, rows: Leases, rows': Leases) {
    || (a.TryCreate? && b.BeginAcquire? && b.now < b.horizon && b.call == a.call && CreatesAsAsked(b, rows, rows'))
    || (a.TryRegrant? && b.BeginAcquire? && b.now < b.horizon && b.call == a.call && RegrantsAsAsked(b, rows, rows'))
    || (a.WriteRenewal? && b.ReadForRenew? && b.call == a.call && RenewsAsAsked(b, rows, rows'))
    || (a.WriteTransfer? && b.ReadForTransfer? && b.call == a.call && TransfersAsAsked(b, rows, rows'))
  }

  predicate WritesLease(a: Action) {
    a.TryCreate? || a.TryRegrant? || a.WriteRenewal? || a.WriteTransfer?
  }

  lemma GrantsAnswer(w: World, b: Action, a: Action, w': World)
    requires Step(w, a, w') && (a.TryCreate? || a.TryRegrant?)
    requires b.BeginAcquire? && b.now < b.horizon && b.call == a.call && w.calls[a.call].context == b.context
    requires GrantedTo(w.calls[a.call].grant, b.drawn, b.holder, b.initiator, b.run, b.ttl, b.horizon, b.now)
    ensures AnswersRequest(b, a, w.db.leases, w'.db.leases)
  {
  }

  /** A call that reads first was begun while the row it read carried the generation it names. */
  ghost predicate SameHorizon(rows: Leases, c: ContextId, g: Generation, horizon: Time) {
    c in rows && rows[c].generation == g ==> rows[c].horizon == horizon
  }

  lemma RenewalAnswers(w: World, b: Action, a: Action, w': World, horizon: Time)
    requires Step(w, a, w') && a.WriteRenewal? && b.ReadForRenew? && b.call == a.call
    requires var call := w.calls[a.call];
             call == Renewing(b.context, b.generation, b.run, b.caller, call.expiresAt, b.now)
             && Capped(call.expiresAt, b.now, b.ttl, horizon)
    requires SameHorizon(w.db.leases, b.context, b.generation, horizon)
    ensures AnswersRequest(b, a, w.db.leases, w'.db.leases)
  {
  }

  lemma TransferAnswers(w: World, b: Action, a: Action, w': World, horizon: Time)
    requires Step(w, a, w') && a.WriteTransfer? && b.ReadForTransfer? && b.call == a.call
    requires var call := w.calls[a.call];
             call == Transferring(b.context, b.generation, b.caller, b.drawn, b.to, call.expiresAt, b.now)
             && Capped(call.expiresAt, b.now, b.ttl, horizon)
    requires SameHorizon(w.db.leases, b.context, b.generation, horizon)
    ensures AnswersRequest(b, a, w.db.leases, w'.db.leases)
  {
  }

  lemma HorizonStands(ws: seq<World>, acts: seq<Action>, i: nat, j: nat, c: ContextId)
    requires IsRun(ws, acts) && i <= j < |ws| && c in ws[i].db.leases
    ensures SameHorizon(ws[j].db.leases, c, ws[i].db.leases[c].generation, ws[i].db.leases[c].horizon)
  {
    if c in ws[j].db.leases && ws[j].db.leases[c].generation == ws[i].db.leases[c].generation {
      GenerationKeepsItsFacts(ws, acts, i, j, c, c);
    }
  }

  /**
   * Every write of a lease row in a run answers one earlier request: it happens exactly when
   * the row then stored allows it, writes the row that was asked for, and no other row.
   */
  lemma LeaseWritesAnswerRequests(ws: seq<World>, acts: seq<Action>, j: nat)
    requires IsRun(ws, acts) && j < |acts| && WritesLease(acts[j])
    ensures exists i :: 0 <= i < j && AnswersRequest(acts[i], acts[j], ws[j].db.leases, ws[j + 1].db.leases)
  {
    var a := acts[j];
    assert Step(ws[j], a, ws[j + 1]);
    EveryCallWasBegun(ws, acts, j, a.call);
    var i :| BegunAt(ws, acts, i, j, a.call, ws[j].calls[a.call]);
    var b := acts[i];
    if a.WriteRenewal? {
      HorizonStands(ws, acts, i, j, b.context);
      RenewalAnswers(ws[j], b, a, ws[j + 1], ws[i].db.leases[b.context].horizon);
    } else if a.WriteTransfer? {
      HorizonStands(ws, acts, i, j, b.context);
      TransferAnswers(ws[j], b, a, ws[j + 1], ws[i].db.leases[b.context].horizon);
    } else {
      GrantsAnswer(ws[j], b, a, ws[j + 1]);
    }
  }

  // ---- every other action ----

  /** The dispatch an action writes the receipt of, if it writes one. */
  ghost predicate Concerns(w: World, a: Action, d: DispatchId)
    requires Enabled(w, a)
  {
    if ByWorker(a) then w.workers[a.worker].dispatch == d
    else (a.ReconcileReceipt? || a.ObserveRuntime? || a.CommitEffect?) && a.dispatch == d
  }

  /** The row of `c` is released because its holder said so. */
  ghost predicate ReleasedByHolder(rows: Leases, a: Action, c: ContextId) {
    a.ReleaseLease? && a.context == c && Names(rows, c, a.generation, a.run) && Entitled(rows[c], a.caller)
  }

  /** The row of `c` is released because a receipt bound to its generation was settled in the same action. */
  ghost predicate ReleasedBySettling(w: World, a: Action, w': World, c: ContextId, d: DispatchId)
    requires Enabled(w, a)
  {
    && Concerns(w, a, d) && d in w.db.receipts && d in w'.db.receipts && c in w.db.leases
    && Binding(c, w.db.leases[c].generation) in w.db.receipts[d].bindings
    && (w'.db.receipts[d].execution == OutcomeUnknown || w'.db.receipts[d].effect != Pending)
  }

  ghost predicate Settles(w: World, a: Action, d: DispatchId, r': Receipt)
    requires Enabled(w, a)
  {
    Concerns(w, a, d) && d in w.db.receipts && (r'.execution == OutcomeUnknown || r'.effect != Pending)
  }

  /** A transaction of a dispatch leaves the lease rows alone, or settles its receipt and releases them. */
  ghost predicate LeavesOrSettles(w: World, a: Action, db': Db)
    requires Enabled(w, a) && !OnLeases(a)
  {
    db'.leases == w.db.leases
    || exists d :: d in db'.receipts && Settles(w, a, d, db'.receipts[d])
                   && ReleasesBound(w.db.leases, db'.leases, w.db.receipts[d].bindings, ClockOf(a))
  }

  /** The clock an action releases at; the others release nothing. */
  ghost function ClockOf(a: Action): Time {
    if ByWorker(a) || a.ReconcileReceipt? || a.ObserveRuntime? || a.CommitEffect? || a.ReleaseLease? then a.now else 0
  }

  lemma WorkersLeaveOrSettle(w: World, a: Action)
    requires Enabled(w, a) && ByWorker(a)
    ensures LeavesOrSettles(w, a, NextTables(w, a))
  {
    var d, db' := w.workers[a.worker].dispatch, NextTables(w, a);
    if d in w.db.receipts {
      ReleaseAllExactly(w.db.leases, w.db.receipts[d].bindings, a.now);
      assert db'.leases == w.db.leases || Settles(w, a, d, db'.receipts[d]);
    }
  }

  lemma OthersLeaveOrSettle(w: World, a: Action)
    requires Enabled(w, a) && !OnLeases(a) && !ByWorker(a)
    ensures LeavesOrSettles(w, a, NextTables(w, a))
  {
    if a.ReconcileReceipt? || a.ObserveRuntime? || a.CommitEffect? {
      var db' := NextTables(w, a);
      ReleaseAllExactly(w.db.leases, w.db.receipts[a.dispatch].bindings, a.now);
      assert db'.leases == w.db.leases || Settles(w, a, a.dispatch, db'.receipts[a.dispatch]);
    }
  }

  /**
   * Apart from the writes of lease calls a row changes only by being released: by its holder, or
   * together with a receipt that is bound to its generation and is then unknown or resolved.
   */
  lemma OtherwiseRowsAreOnlyReleased(w: World, a: Action, w': World, c: ContextId)
    requires Step(w, a, w') && !WritesLease(a)
    ensures c in w.db.leases <==> c in w'.db.leases
    ensures c in w.db.leases && w'.db.leases[c] != w.db.leases[c] ==>
              && ReleasedAt(w.db.leases[c], w'.db.leases[c], ClockOf(a))
              && (ReleasedByHolder(w.db.leases, a, c) || exists d :: ReleasedBySettling(w, a, w', c, d))
  {
    if !OnLeases(a) {
      if ByWorker(a) {
        WorkersLeaveOrSettle(w, a);
      } else {
        OthersLeaveOrSettle(w, a);
      }
      SettlingReleases(w, a, w', c);
    }
  }

  lemma SettlingReleases(w: World, a: Action, w': World, c: ContextId)
    requires Step(w, a, w') && !OnLeases(a) && LeavesOrSettles(w, a, w'.db)
    ensures c in w.db.leases <==> c in w'.db.leases
    ensures c in w.db.leases && w'.db.leases[c] != w.db.leases[c] ==>
              ReleasedAt(w.db.leases[c], w'.db.leases[c], ClockOf(a)) && exists d :: ReleasedBySettling(w, a, w', c, d)
  {
    if w'.db.leases != w.db.leases {
      var d :| d in w'.db.receipts && Settles(w, a, d, w'.db.receipts[d])
               && ReleasesBound(w.db.leases, w'.db.leases, w.db.receipts[d].bindings, ClockOf(a));
      assert c in w.db.leases && w'.db.leases[c] != w.db.leases[c] ==> ReleasedBySettling(w, a, w', c, d);
    }
  }

  // ---- receipts ----

  /** What an action leaves of a receipt, for every receipt and every action. */
  ghost predicate WritesReceipt(w: World, a: Action, d: DispatchId, r: Receipt, r': Receipt)
    requires Enabled(w, a)
  {
    var active := r.execution == RuntimeAcknowledged || r.execution == Running || r.execution == Blocked;
    if a.ClaimOutbox? && a.dispatch == d then ClaimedAt(r, r', a.now)
    else if a.AcknowledgeStart? && Concerns(w, a, d) && r.execution == Queued then
      AcknowledgedWith(r, r', w.workers[a.worker].stage.status, a.now)
    else if a.ObserveStart? && Concerns(w, a, d) && active then
      ObservedWith(r, r', w.workers[a.worker].stage.status, a.now)
    else if a.GiveUp? && Concerns(w, a, d) && r.execution == Queued then
      FailedFor(r, r', w.workers[a.worker].stage.up, a.now)
    else if a.ObserveRuntime? && Concerns(w, a, d) && active then ObservedWith(r, r', a.status, a.now)
    else if a.ReconcileReceipt? && Concerns(w, a, d) then ReconciledAt(r, r', a.now)
    else if a.CommitEffect? && Concerns(w, a, d) then CommittedWith(r, r', a.version, a.now)
    else r' == r
  }

  /** Every receipt after every action, field by field; a new one was admitted by every check. */
  lemma ReceiptWritesExactly(w: World, a: Action, w': World, d: DispatchId)
    requires Step(w, a, w') && d in w'.db.receipts
    ensures d in w.db.receipts ==> WritesReceipt(w, a, d, w.db.receipts[d], w'.db.receipts[d])
    ensures d !in w.db.receipts ==>
              && a.AcceptReceipt? && a.dispatch == d && NewlyAdmitted(w'.db.receipts[d], a.request, a.now)
              && OneBindingEach(a.request) && TablesAgree(a.board, a.request)
              && HoldsTargets(w.db.leases, a.request, a.now) && !RunIsTaken(w.db.receipts, d, a.request.run)
  {
    if d in w.db.receipts {
      NextReceipt(w, a, d);
      ReceiptNextExactly(w, a, d);
    } else {
      NewReceiptIsAdmitted(w, a, w', d);
      AdmissionIsRefusedExactly(w.db, a.board, d, a.request, a.now);
    }
  }

  lemma NewReceiptIsAdmitted(w: World, a: Action, w': World, d: DispatchId)
    requires Step(w, a, w') && d in w'.db.receipts && d !in w.db.receipts
    ensures a.AcceptReceipt? && a.dispatch == d && NewlyAdmitted(w'.db.receipts[d], a.request, a.now)
  {
    assert a.AcceptReceipt? && w'.db.receipts[d] == NewReceipt(a.request, a.now);
  }

  lemma ReceiptNextExactly(w: World, a: Action, d: DispatchId)
    requires Enabled(w, a) && d in w.db.receipts
    ensures WritesReceipt(w, a, d, w.db.receipts[d], ReceiptNext(w, a, d))
  {
    if ByWorker(a) {
      WorkerNextExactly(w, a, d);
    } else {
      OtherNextExactly(w, a, d);
    }
  }

  lemma WorkerNextExactly(w: World, a: Action, d: DispatchId)
    requires Enabled(w, a) && d in w.db.receipts && ByWorker(a)
    ensures WritesReceipt(w, a, d, w.db.receipts[d], ReceiptNext(w, a, d))
  {
    var r, stage := w.db.receipts[d], w.workers[a.worker].stage;
    if a.AcknowledgeStart? {
      AcknowledgesExactly(r, stage.status, a.now);
    } else if a.ObserveStart? {
      ObservesExactly(r, stage.status, a.now);
    } else {
      FailsExactly(r, stage.up, a.now);
    }
  }

  lemma OtherNextExactly(w: World, a: Action, d: DispatchId)
    requires Enabled(w, a) && d in w.db.receipts && !ByWorker(a)
    ensures WritesReceipt(w, a, d, w.db.receipts[d], ReceiptNext(w, a, d))
  {
    var r := w.db.receipts[d];
    if a.ObserveRuntime? {
      ObservesExactly(r, a.status, a.now);
    } else if a.ReconcileReceipt? {
      ReconcileExactly(r, a.now);
    } else if a.CommitEffect? {
      CommitsExactly(r, a.version, a.now);
    }
  }
}
