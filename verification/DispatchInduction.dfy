/** The invariant holds initially, survives every action, and so holds along every run. */
module DispatchInduction {
  import opened Wrappers
  import opened ContextLease
  import opened DispatchReceipt
  import opened RowChanges
  import opened DispatchProtocol
  import opened DispatchInvariants

  function WithDb(w: World, db: Db): World {
    w.(db := db)
  }

  lemma LaterKeepsReceipt(w: World, w': World, r: Receipt)
    requires Later(w, w') && ReceiptAgrees(w.facts, w.db.leases, r)
    ensures ReceiptAgrees(w'.facts, w'.db.leases, r)
  {
    forall b | b in r.bindings ensures b.generation in w.facts && w'.facts[b.generation] == w.facts[b.generation] {
    }
  }

  lemma LaterKeepsReceipts(w: World, w': World)
    requires Later(w, w') && ReceiptInv(w) && w'.db.receipts == w.db.receipts
    ensures ReceiptInv(w')
  {
    forall d | d in w'.db.receipts ensures ReceiptAgrees(w'.facts, w'.db.leases, w'.db.receipts[d]) {
      LaterKeepsReceipt(w, w', w.db.receipts[d]);
    }
  }

  predicate Settled(r: Receipt) {
    r.execution == OutcomeUnknown || r.effect != Pending
  }

  /** One receipt moves; if it becomes settled its generations die in the same transaction. */
  lemma ResolveKeeps(w: World, d: DispatchId, r': Receipt, release: bool, now: Time)
    requires LeaseInv(w) && ReceiptInv(w) && d in w.db.receipts
    requires r'.bindings == w.db.receipts[d].bindings && r'.run == w.db.receipts[d].run
    requires StatusAgrees(r') && EventsAgree(r')
    requires Settled(r') ==> release || Settled(w.db.receipts[d])
    ensures var w' := WithDb(w, Resolve(w.db, d, r', release, now));
            LeaseInv(w') && ReceiptInv(w') && Later(w, w')
  {
    var db' := Resolve(w.db, d, r', release, now);
    var w' := WithDb(w, db');
    var r := w.db.receipts[d];
    var w1 := WithDb(w, w.db.(leases := db'.leases));
    if release {
      ReleaseAllKeepsRows(w, r.bindings, now);
      ReleaseAllKills(w.db.leases, w.facts, r, now);
    }
    assert LeaseInv(w1) && Later(w, w1);
    forall k | k in w'.calls ensures CallAgrees(w', w'.calls[k]) {
      assert CallAgrees(w1, w1.calls[k]);
    }
    forall e | e in db'.receipts ensures ReceiptAgrees(w'.facts, db'.leases, db'.receipts[e]) {
      LaterKeepsReceipt(w, w1, w.db.receipts[e]);
    }
  }

  lemma LogKeepsEvents(r: Receipt, kind: EventKind, now: Time)
    requires EventsAgree(r) && !kind.EffectCommitted?
    ensures EventsAgree(Log(r, kind, now)) && (HasCommit(Log(r, kind, now)) <==> HasCommit(r))
  {
    var r' := Log(r, kind, now);
    assert forall i :: 0 <= i < |r.events| ==> r'.events[i] == r.events[i];
  }

  lemma CommitLogsOnce(r: Receipt, version: int, now: Time)
    requires EventsAgree(r) && !HasCommit(r)
    ensures EventsAgree(CommittedReceipt(r, version, now))
  {
    var r' := CommittedReceipt(r, version, now);
    assert forall i :: 0 <= i < |r.events| ==> r'.events[i] == r.events[i];
    assert IsCommit(r'.events[|r.events|]);
  }

  ghost predicate Good(w: World) {
    LeaseInv(w) && ReceiptInv(w)
  }

  lemma AcknowledgeKeeps(w: World, d: DispatchId, s: RuntimeStatus, now: Time)
    requires Good(w) && WasClaimed(w, d)
    ensures Good(WithDb(w, Acknowledge(w.db, d, s, now))) && Later(w, WithDb(w, Acknowledge(w.db, d, s, now)))
  {
    if IsQueued(w.db, d) {
      var r := w.db.receipts[d];
      LogKeepsEvents(r.(execution := AcknowledgedStatus(s)), AcknowledgedAs(AcknowledgedStatus(s)), now);
      ResolveKeeps(w, d, AcknowledgedReceipt(r, s, now), AcknowledgedStatus(s) == OutcomeUnknown, now);
    }
  }

  lemma FailKeeps(w: World, d: DispatchId, why: Reason, now: Time)
    requires Good(w)
    ensures Good(WithDb(w, FailBeforeAck(w.db, d, why, now))) && Later(w, WithDb(w, FailBeforeAck(w.db, d, why, now)))
  {
    if IsQueued(w.db, d) {
      var r := w.db.receipts[d];
      LogKeepsEvents(r.(execution := Failed), FailedToStart(why), now);
      ResolveKeeps(w, d, FailedReceipt(r, why, now), true, now);
    }
  }

  lemma ObserveKeeps(w: World, d: DispatchId, s: RuntimeStatus, now: Time)
    requires Good(w)
    ensures Good(WithDb(w, Observe(w.db, d, s, now))) && Later(w, WithDb(w, Observe(w.db, d, s, now)))
  {
    if d in w.db.receipts && IsActive(w.db.receipts[d].execution) {
      var r := w.db.receipts[d];
      LogKeepsEvents(r.(execution := ObservedStatus(s)), ObservedAs(ObservedStatus(s)), now);
      ResolveKeeps(w, d, ObservedReceipt(r, s, now), ObservedStatus(s) == OutcomeUnknown, now);
    }
  }

  lemma ReconcileExecutionAgrees(r: Receipt, now: Time)
    requires StatusAgrees(r) && EventsAgree(r)
    ensures StatusAgrees(ReconcileExecution(r, now)) && EventsAgree(ReconcileExecution(r, now))
  {
    if StartOverdue(r, now) {
      UnknownKeepsEvents(r, StartDeadlineElapsed, now);
    } else if LivenessOverdue(r, now) {
      UnknownKeepsEvents(r, LivenessDeadlineElapsed, now);
    }
  }

  lemma UnknownKeepsEvents(r: Receipt, why: Reason, now: Time)
    requires EventsAgree(r)
    ensures EventsAgree(UnknownReceipt(r, why, now))
  {
    LogKeepsEvents(r.(execution := OutcomeUnknown), BecameUnknown(why), now);
  }

  lemma ReconcileEffectAgrees(r: Receipt, now: Time)
    requires StatusAgrees(r) && EventsAgree(r)
    ensures StatusAgrees(ReconcileEffect(r, now)) && EventsAgree(ReconcileEffect(r, now))
  {
    LogKeepsEvents(r.(effect := EffectFailed, effectTerminalAt := Some(now)), EffectDeadlineElapsed, now);
  }

  lemma ReconcileKeeps(w: World, d: DispatchId, now: Time)
    requires Good(w)
    ensures Good(WithDb(w, Reconcile(w.db, d, now))) && Later(w, WithDb(w, Reconcile(w.db, d, now)))
  {
    if d in w.db.receipts {
      var r := w.db.receipts[d];
      ReconcileExecutionAgrees(r, now);
      ReconcileEffectAgrees(ReconcileExecution(r, now), now);
      ResolveKeeps(w, d, ReconcileEffect(ReconcileExecution(r, now), now),
                   StartOverdue(r, now) || LivenessOverdue(r, now) || EffectOverdue(r, now), now);
    }
  }

  lemma CommitKeeps(w: World, board: Board, drawing: DrawingId, d: DispatchId, run: RunId,
                    token: Token, version: int, now: Time)
    requires Good(w)
    ensures var w' := WithDb(w, Commit(w.db, board, drawing, d, run, token, version, now)); Good(w') && Later(w, w')
  {
    if RefuseCommit(w.db, board, drawing, d, run, token, now).None? {
      var r := w.db.receipts[d];
      CommitLogsOnce(r, version, now);
      ResolveKeeps(w, d, CommittedReceipt(r, version, now), true, now);
    }
  }

  lemma ClaimKeeps(w: World, d: DispatchId, now: Time)
    requires Good(w) && CanClaim(w.db, d)
    ensures Good(WithDb(w, Claim(w.db, d, now))) && Later(w, WithDb(w, Claim(w.db, d, now)))
  {
    var r := w.db.receipts[d];
    var r' := r.(outbox := r.outbox.(state := Sending, attemptStartedAt := Some(now)));
    assert EventsAgree(r');
    ResolveKeeps(w, d, r', false, now);
    assert Resolve(w.db, d, r', false, now) == Claim(w.db, d, now);
  }

  /** Equally long lists of Contexts that cover the same set name each Context once. */
  lemma {:induction false} CoverIsExact(bindings: seq<Binding>, targets: set<ContextId>)
    requires |targets| <= |bindings|
    requires targets <= Admitted(bindings).Keys
    ensures |Admitted(bindings).Keys| <= |bindings|
    ensures |targets| == |bindings| ==> targets == Admitted(bindings).Keys
    ensures |targets| == |bindings| ==>
              forall i, j :: 0 <= i < j < |bindings| ==> bindings[i].context != bindings[j].context
    ensures |targets| == |bindings| ==>
              forall i :: 0 <= i < |bindings| ==>
                bindings[i].context in Admitted(bindings)
                && Admitted(bindings)[bindings[i].context] == bindings[i].generation
    decreases |bindings|
  {
    AdmittedIsSmall(bindings);
    SubsetIsSmaller(targets, Admitted(bindings).Keys);
    if bindings != [] && |targets| == |bindings| {
      var n := |bindings| - 1;
      var last, init := bindings[n], bindings[..n];
      LastIsNew(init, last);
      assert bindings == init + [last];
      CoverIsExact(init, Admitted(init).Keys);
    }
  }

  /** As many Contexts as bindings: the last binding names one that no earlier binding names. */
  lemma LastIsNew(init: seq<Binding>, last: Binding)
    requires |Admitted(init + [last]).Keys| == |init| + 1
    ensures last.context !in Admitted(init) && |Admitted(init).Keys| == |init|
  {
    AdmittedIsSmall(init);
    assert (init + [last])[..|init|] == init;
    var keys := Admitted(init).Keys;
    assert Admitted(init + [last]).Keys == keys + {last.context};
    assert last.context in keys ==> keys + {last.context} == keys;
  }

  lemma SubsetIsSmaller<T>(a: set<T>, b: set<T>)
    requires a <= b
    ensures |a| <= |b| && (|a| == |b| ==> a == b)
  {
    assert b == a + (b - a);
  }

  lemma {:induction false} AdmittedIsSmall(bindings: seq<Binding>)
    ensures |Admitted(bindings).Keys| <= |bindings|
    decreases |bindings|
  {
    if bindings != [] {
      AdmittedIsSmall(bindings[..|bindings| - 1]);
    }
  }

  /** An admitted receipt binds every target exactly once, with the generation then in the row. */
  lemma AcceptBindsTargets(db: Db, board: Board, d: DispatchId, q: Request, now: Time)
    requires RefuseAccept(db, board, d, q, now).None?
    ensures q.bindings != []
    ensures forall i, j :: 0 <= i < j < |q.bindings| ==> q.bindings[i].context != q.bindings[j].context
    ensures forall c :: c in q.targets <==> exists b :: b in q.bindings && b.context == c
    ensures HoldsEveryLease(db.leases, q.bindings, q.run, now)
    ensures EveryBoundLive(db.leases, q.bindings, q.run, now)
  {
    var targets := Elements(q.targets);
    assert targets <= Admitted(q.bindings).Keys;
    CoverIsExact(q.bindings, targets);
    forall i | 0 <= i < |q.bindings|
      ensures HoldsLease(db.leases, q.bindings[i], q.run, now) && q.bindings[i].context in targets
    {
    }
    BoundLiveExactly(db.leases, q.bindings, q.run, now);
    forall c | c in targets ensures exists b :: b in q.bindings && b.context == c {
      AdmittedComesFromBinding(q.bindings, c);
    }
  }

  lemma {:induction false} AdmittedComesFromBinding(bindings: seq<Binding>, c: ContextId)
    requires c in Admitted(bindings)
    ensures exists b :: b in bindings && b.context == c
    decreases |bindings|
  {
    var n := |bindings| - 1;
    if bindings[n].context == c {
      assert bindings[n] in bindings;
    } else {
      AdmittedComesFromBinding(bindings[..n], c);
      var b :| b in bindings[..n] && b.context == c;
      assert b in bindings;
    }
  }

  lemma NewReceiptAgrees(w: World, board: Board, d: DispatchId, q: Request, now: Time)
    requires LeaseInv(w) && RefuseAccept(w.db, board, d, q, now).None?
    ensures ReceiptAgrees(w.facts, w.db.leases, NewReceipt(q, now))
  {
    AcceptBindsTargets(w.db, board, d, q, now);
    forall b | b in q.bindings
      ensures b.generation in w.facts && w.facts[b.generation].context == b.context && w.facts[b.generation].run == q.run
    {
      var i :| 0 <= i < |q.bindings| && q.bindings[i] == b;
      assert HoldsLease(w.db.leases, q.bindings[i], q.run, now);
      assert RowAgrees(w.facts, b.context, w.db.leases[b.context]);
    }
    assert !HasCommit(NewReceipt(q, now));
  }

  lemma AcceptKeeps(w: World, board: Board, d: DispatchId, q: Request, now: Time)
    requires Good(w) && RefuseAccept(w.db, board, d, q, now).None?
    ensures Good(WithDb(w, Accept(w.db, board, d, q, now))) && Later(w, WithDb(w, Accept(w.db, board, d, q, now)))
  {
    var w' := WithDb(w, Accept(w.db, board, d, q, now));
    NewReceiptAgrees(w, board, d, q, now);
    forall k | k in w'.calls ensures CallAgrees(w', w'.calls[k]) {
      assert CallAgrees(w, w.calls[k]);
    }
  }

  predicate ByWorker(a: Action) {
    a.AcknowledgeStart? || a.ObserveStart? || a.GiveUp?
  }

  lemma WorkerTables(w: World, a: Action)
    requires Enabled(w, a) && ByWorker(a)
    ensures Next(w, a).db == NextTables(w, a)
  {
  }

  lemma WorkerActionKeepsGood(w: World, a: Action)
    requires Good(w) && WorkerInv(w) && Enabled(w, a) && ByWorker(a)
    ensures Good(WithDb(w, Next(w, a).db)) && Later(w, WithDb(w, Next(w, a).db))
  {
    WorkerTables(w, a);
    var d, stage := w.workers[a.worker].dispatch, w.workers[a.worker].stage;
    if a.AcknowledgeStart? {
      AcknowledgeKeeps(w, d, stage.status, a.now);
    } else if a.ObserveStart? {
      ObserveKeeps(w, d, stage.status, a.now);
    } else {
      FailKeeps(w, d, stage.up, a.now);
    }
  }

  lemma TableActionKeepsGood(w: World, a: Action)
    requires Good(w) && WorkerInv(w) && Enabled(w, a) && !OnLeases(a)
    ensures Good(WithDb(w, Next(w, a).db)) && Later(w, WithDb(w, Next(w, a).db))
  {
    if ByWorker(a) {
      WorkerActionKeepsGood(w, a);
    } else if a.AcceptReceipt? {
      AcceptKeeps(w, a.board, a.dispatch, a.request, a.now);
    } else if a.ClaimOutbox? {
      ClaimKeeps(w, a.dispatch, a.now);
    } else if a.ObserveRuntime? {
      ObserveKeeps(w, a.dispatch, a.status, a.now);
    } else if a.ReconcileReceipt? {
      ReconcileKeeps(w, a.dispatch, a.now);
    } else if a.CommitEffect? {
      CommitKeeps(w, a.board, a.drawing, a.dispatch, a.run, a.token, a.version, a.now);
    } else {
      assert WithDb(w, Next(w, a).db) == w;
    }
  }

  lemma OtherFieldsUntouched(w: World, a: Action)
    requires Enabled(w, a) && !OnLeases(a)
    ensures Next(w, a).facts == w.facts && Next(w, a).calls == w.calls && Next(w, a).drawn == w.drawn
  {
  }

  /** Leases and receipts after any action. */
  lemma ActionKeepsGood(w: World, a: Action, w': World)
    requires Good(w) && WorkerInv(w) && Step(w, a, w')
    ensures Good(w') && Later(w, w')
  {
    if OnLeases(a) {
      LeaseActionKeepsLeases(w, a);
      assert w'.db.receipts == w.db.receipts;
      LaterKeepsReceipts(w, w');
    } else {
      TableActionKeepsGood(w, a);
      OtherFieldsUntouched(w, a);
      SameTables(WithDb(w, w'.db), w');
    }
  }

  lemma SameTables(w: World, w': World)
    requires Good(w) && w'.db == w.db && w'.facts == w.facts && w'.calls == w.calls && w'.drawn == w.drawn
    ensures Good(w') && Later(w, w')
  {
    forall k | k in w'.calls ensures CallAgrees(w', w'.calls[k]) {
      assert CallAgrees(w, w.calls[k]);
    }
  }

  lemma WorkersKeepClaims(w: World, a: Action, d: DispatchId)
    requires Enabled(w, a) && WasClaimed(w, d) && ByWorker(a)
    ensures d in NextTables(w, a).receipts && NextTables(w, a).receipts[d].outbox.state != Waiting
  {
  }

  lemma OthersKeepClaims(w: World, a: Action, d: DispatchId)
    requires Enabled(w, a) && WasClaimed(w, d) && !OnLeases(a) && !ByWorker(a)
    ensures d in NextTables(w, a).receipts && NextTables(w, a).receipts[d].outbox.state != Waiting
  {
  }

  lemma CallsKeepReceipts(w: World, a: Action)
    requires Enabled(w, a) && OnLeases(a)
    ensures Next(w, a).db.receipts == w.db.receipts
    ensures Next(w, a).workers == w.workers && Next(w, a).starts == w.starts
  {
  }

  /** A claimed outbox is never waiting again. */
  lemma ClaimIsForever(w: World, a: Action, d: DispatchId)
    requires Enabled(w, a) && WasClaimed(w, d)
    ensures WasClaimed(Next(w, a), d)
  {
    if OnLeases(a) {
      CallsKeepReceipts(w, a);
    } else if ByWorker(a) {
      WorkersKeepClaims(w, a, d);
    } else {
      OthersKeepClaims(w, a, d);
    }
  }

  ghost predicate ClaimsKept(w: World, w': World) {
    forall d :: WasClaimed(w, d) ==> WasClaimed(w', d)
  }

  /** The worker moves on or ends; nothing was started. */
  lemma MovedWorkerKeeps(w: World, w': World, k: WorkerId, stage: Stage)
    requires WorkerInv(w) && ClaimsKept(w, w') && w'.starts == w.starts && k in w.workers
    requires BeforeStart(stage) ==> BeforeStart(w.workers[k].stage)
    requires w'.workers == w.workers[k := w.workers[k].(stage := stage)] || w'.workers == w.workers - {k}
             || w'.workers == w.workers
    ensures WorkerInv(w')
  {
  }

  lemma ClaimingKeepsWorkers(w: World, k: WorkerId, d: DispatchId, now: Time)
    requires WorkerInv(w) && Enabled(w, ClaimOutbox(k, d, now))
    ensures WorkerInv(Next(w, ClaimOutbox(k, d, now)))
  {
    var w' := Next(w, ClaimOutbox(k, d, now));
    assert !WasClaimed(w, d) && WasClaimed(w', d);
    assert forall e :: WasClaimed(w, e) ==> WasClaimed(w', e);
    assert w.starts[d] == 0;
  }

  /** A worker about to start becomes one that has started, or ends; its start is counted. */
  lemma StartedWorkerKeeps(w: World, w': World, k: WorkerId, stage: Stage)
    requires WorkerInv(w) && k in w.workers && w.workers[k].stage == Authorized && !BeforeStart(stage)
    requires w'.db == w.db && w'.starts == w.starts + multiset{w.workers[k].dispatch}
    requires w'.workers == w.workers[k := Worker(w.workers[k].dispatch, stage)] || w'.workers == w.workers - {k}
    ensures WorkerInv(w')
  {
    var d := w.workers[k].dispatch;
    assert w.starts[d] == 0 && WasClaimed(w, d);
    assert forall e :: w'.starts[e] == if e == d then 1 else w.starts[e];
    assert forall e :: WasClaimed(w', e) == WasClaimed(w, e);
  }

  /** The only action that counts a start, and only for the one worker before its start. */
  lemma StartingKeepsWorkers(w: World, k: WorkerId, outcome: StartOutcome)
    requires WorkerInv(w) && Enabled(w, StartRuntime(k, outcome))
    ensures WorkerInv(Next(w, StartRuntime(k, outcome)))
  {
    var stage := if outcome.RunStarted? then Started(outcome.status) else Giving(RuntimeUnavailable);
    StartedWorkerKeeps(w, Next(w, StartRuntime(k, outcome)), k, stage);
  }

  predicate Untouched(a: Action) {
    !a.ClaimOutbox? && !a.LoadDispatch? && !a.Authorize? && !a.StartRuntime? && !a.AcknowledgeStart?
    && !a.ObserveStart? && !a.GiveUp? && !a.CrashWorker?
  }

  lemma UntouchedWorkers(w: World, a: Action)
    requires Enabled(w, a) && Untouched(a)
    ensures Next(w, a).workers == w.workers && Next(w, a).starts == w.starts
  {
  }

  lemma WorkerMoves(w: World, a: Action, w': World)
    requires WorkerInv(w) && Step(w, a, w') && ClaimsKept(w, w')
    requires !Untouched(a) && !a.ClaimOutbox? && !a.StartRuntime?
    ensures WorkerInv(w')
  {
    var k := a.worker;
    var stage := if k in w'.workers then w'.workers[k].stage else w.workers[k].stage;
    MovedWorkerKeeps(w, w', k, stage);
  }

  lemma ActionKeepsClaims(w: World, a: Action, w': World)
    requires Step(w, a, w')
    ensures ClaimsKept(w, w')
  {
    forall d | WasClaimed(w, d) ensures WasClaimed(w', d) {
      ClaimIsForever(w, a, d);
    }
  }

  lemma ActionKeepsWorkers(w: World, a: Action, w': World)
    requires WorkerInv(w) && Step(w, a, w')
    ensures WorkerInv(w')
  {
    ActionKeepsClaims(w, a, w');
    if Untouched(a) {
      UntouchedWorkers(w, a);
    } else if a.ClaimOutbox? {
      ClaimingKeepsWorkers(w, a.worker, a.dispatch, a.now);
    } else if a.StartRuntime? {
      StartingKeepsWorkers(w, a.worker, a.outcome);
    } else {
      WorkerMoves(w, a, w');
    }
  }

  lemma ActionKeepsInv(w: World, a: Action, w': World)
    requires Inv(w) && Step(w, a, w')
    ensures Inv(w') && Later(w, w')
  {
    ActionKeepsGood(w, a, w');
    ActionKeepsWorkers(w, a, w');
  }

  /** Every state of every run satisfies the invariant. */
  lemma {:induction false} RunInvariant(ws: seq<World>, acts: seq<Action>, i: nat)
    requires IsRun(ws, acts) && i < |ws|
    ensures Inv(ws[i])
  {
    if i > 0 {
      RunInvariant(ws, acts, i - 1);
      ActionKeepsInv(ws[i - 1], acts[i - 1], ws[i]);
    }
  }

  lemma RunAdvances(ws: seq<World>, acts: seq<Action>, i: nat)
    requires IsRun(ws, acts) && i < |acts|
    ensures Later(ws[i], ws[i + 1])
  {
    RunInvariant(ws, acts, i);
    ActionKeepsInv(ws[i], acts[i], ws[i + 1]);
  }

  lemma LaterIsTransitive(w0: World, w1: World, w2: World)
    requires Later(w0, w1) && Later(w1, w2)
    ensures Later(w0, w2)
  {
  }

  lemma {:induction false} ChainIsLater(ws: seq<World>, i: nat, j: nat)
    requires forall k :: 0 <= k < |ws| - 1 ==> Later(ws[k], ws[k + 1])
    requires i <= j < |ws|
    ensures Later(ws[i], ws[j])
    decreases j - i
  {
    if i < j {
      ChainIsLater(ws, i, j - 1);
      assert Later(ws[j - 1], ws[j - 1 + 1]);
      LaterIsTransitive(ws[i], ws[j - 1], ws[j]);
    }
  }

  /** Along a run, a written generation keeps its facts and a dead one stays dead. */
  lemma RunIsLater(ws: seq<World>, acts: seq<Action>, i: nat, j: nat)
    requires IsRun(ws, acts) && i <= j < |ws|
    ensures Later(ws[i], ws[j])
  {
    forall k | 0 <= k < |ws| - 1 ensures Later(ws[k], ws[k + 1]) {
      RunAdvances(ws, acts, k);
    }
    ChainIsLater(ws, i, j);
  }
}
