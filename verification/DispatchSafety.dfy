/** The guarantees of leases and receipts, over every run of the interleaved protocol. */
module DispatchSafety {
  import opened Wrappers
  import opened ContextLease
  import opened DispatchReceipt
  import opened RowChanges
  import opened DispatchProtocol
  import opened DispatchInvariants
  import opened DispatchInduction

  /** What holds at `i` and survives every step holds at `j`. */
  lemma {:induction false} Persists<T>(ws: seq<T>, i: nat, j: nat, p: T -> bool)
    requires i <= j < |ws| && p(ws[i])
    requires forall k :: i <= k < j && p(ws[k]) ==> p(ws[k + 1])
    ensures p(ws[j])
    decreases j - i
  {
    if i < j {
      Persists(ws, i, j - 1, p);
      assert p(ws[j - 1 + 1]);
    }
  }

  // ---- how one receipt may change in one action ----

  predicate GivesUpOn(w: World, a: Action, d: DispatchId)
    requires Enabled(w, a)
  {
    a.GiveUp? && w.workers[a.worker].dispatch == d
  }

  /**
   * A commit asked for in the receipt's drawing and run, with the capability of the run's own
   * mount, on a pending effect of a known outcome whose every bound generation is live.
   */
  ghost predicate CommitsTo(w: World, a: Action, d: DispatchId) {
    && a.CommitEffect? && a.dispatch == d && d in w.db.receipts
    && var r := w.db.receipts[d];
    && a.drawing == r.drawing && a.run == r.run
    && r.run in a.board.mounts && a.board.mounts[r.run].token == a.token
    && r.effect == Pending && r.execution != OutcomeUnknown
    && forall b :: b in r.bindings ==>
         && b.context in w.db.leases
         && var row := w.db.leases[b.context];
            row.generation == b.generation && row.run == r.run
            && row.releasedAt == None && a.now <= row.expiresAt
  }

  /**
   * No action unbinds a receipt, leaves a terminal status or rewrites the log.  An effect
   * is committed only while every bound generation is live, held by the receipt's own run,
   * and while the execution is not `outcome_unknown`; a resolved effect moves only when a
   * worker gives up on a still queued receipt.
   */
  ghost predicate Evolves(w: World, a: Action, d: DispatchId, r: Receipt, r': Receipt)
    requires Enabled(w, a)
  {
    && r'.bindings == r.bindings && r'.run == r.run
    && r.events <= r'.events
    && (IsTerminal(r.execution) ==> r'.execution == r.execution && r'.executionTerminalAt == r.executionTerminalAt)
    && (r.effect == Pending && r'.effect == Committed ==> CommitsTo(w, a, d))
    && (forall i :: |r.events| <= i < |r'.events| && IsCommit(r'.events[i]) ==> CommitsTo(w, a, d))
    && (r.effect != Pending ==>
          (r'.effect != r.effect <==> GivesUpOn(w, a, d) && r.execution == Queued && r.effect == Committed))
  }

  lemma CommitNeedsLiveGenerations(w: World, a: Action)
    requires Inv(w) && Enabled(w, a) && a.CommitEffect?
    ensures CommitsTo(w, a, a.dispatch)
  {
    var r := w.db.receipts[a.dispatch];
    assert ReceiptAgrees(w.facts, w.db.leases, r);
    CommitIsRefusedExactly(w.db, a.board, a.drawing, a.dispatch, a.run, a.token, a.now);
    assert EveryBoundLive(w.db.leases, r.bindings, r.run, a.now);
    var b := r.bindings[0];
    assert b in r.bindings && !Dead(w.db.leases, b.generation);
  }

  /** The one receipt an action may write, and what it becomes. */
  function ReceiptNext(w: World, a: Action, d: DispatchId): Receipt
    requires Enabled(w, a) && d in w.db.receipts
  {
    var r := w.db.receipts[d];
    if a.ClaimOutbox? && a.dispatch == d then Claim(w.db, d, a.now).receipts[d]
    else if a.AcknowledgeStart? && w.workers[a.worker].dispatch == d && r.execution == Queued then
      AcknowledgedReceipt(r, w.workers[a.worker].stage.status, a.now)
    else if a.ObserveStart? && w.workers[a.worker].dispatch == d && IsActive(r.execution) then
      ObservedReceipt(r, w.workers[a.worker].stage.status, a.now)
    else if a.GiveUp? && w.workers[a.worker].dispatch == d && r.execution == Queued then
      FailedReceipt(r, w.workers[a.worker].stage.up, a.now)
    else if a.ObserveRuntime? && a.dispatch == d && IsActive(r.execution) then ObservedReceipt(r, a.status, a.now)
    else if a.ReconcileReceipt? && a.dispatch == d then ReconcileEffect(ReconcileExecution(r, a.now), a.now)
    else if a.CommitEffect? && a.dispatch == d then CommittedReceipt(r, a.version, a.now)
    else r
  }

  lemma NextReceipt(w: World, a: Action, d: DispatchId)
    requires Enabled(w, a) && d in w.db.receipts
    ensures d in Next(w, a).db.receipts && Next(w, a).db.receipts[d] == ReceiptNext(w, a, d)
  {
    if OnLeases(a) {
      CallsKeepReceipts(w, a);
    } else {
      TablesNextReceipt(w, a, d);
    }
  }

  lemma TablesNextReceipt(w: World, a: Action, d: DispatchId)
    requires Enabled(w, a) && d in w.db.receipts && !OnLeases(a)
    ensures d in NextTables(w, a).receipts && NextTables(w, a).receipts[d] == ReceiptNext(w, a, d)
  {
  }

  predicate LogsNoCommit(r: Receipt, r': Receipt) {
    r.events <= r'.events && forall i :: |r.events| <= i < |r'.events| ==> !IsCommit(r'.events[i])
  }

  predicate SameBond(r: Receipt, r': Receipt) {
    r'.bindings == r.bindings && r'.run == r.run
  }

  lemma AdvanceLogsNoCommit(r: Receipt, to: Execution, kind: EventKind, now: Time)
    requires !kind.EffectCommitted?
    ensures LogsNoCommit(r, Advance(r, to, kind, now)) && SameBond(r, Advance(r, to, kind, now))
  {
  }

  lemma ReportsLogNoCommit(r: Receipt, s: RuntimeStatus, why: Reason, now: Time)
    ensures LogsNoCommit(r, AcknowledgedReceipt(r, s, now)) && SameBond(r, AcknowledgedReceipt(r, s, now))
    ensures LogsNoCommit(r, ObservedReceipt(r, s, now)) && SameBond(r, ObservedReceipt(r, s, now))
    ensures LogsNoCommit(r, FailedReceipt(r, why, now)) && SameBond(r, FailedReceipt(r, why, now))
  {
    AdvanceLogsNoCommit(r, AcknowledgedStatus(s), AcknowledgedAs(AcknowledgedStatus(s)), now);
    AdvanceLogsNoCommit(r, ObservedStatus(s), ObservedAs(ObservedStatus(s)), now);
    AdvanceLogsNoCommit(r, Failed, FailedToStart(why), now);
  }

  lemma ReconcilingLogsNoCommit(r: Receipt, now: Time)
    ensures LogsNoCommit(r, ReconcileEffect(ReconcileExecution(r, now), now))
    ensures SameBond(r, ReconcileEffect(ReconcileExecution(r, now), now))
  {
    var r1 := ReconcileExecution(r, now);
    AdvanceLogsNoCommit(r, OutcomeUnknown, BecameUnknown(StartDeadlineElapsed), now);
    AdvanceLogsNoCommit(r, OutcomeUnknown, BecameUnknown(LivenessDeadlineElapsed), now);
    assert LogsNoCommit(r, r1) && SameBond(r, r1);
    AdvanceLogsNoCommit(r1, r1.execution, EffectDeadlineElapsed, now);
  }

  lemma WorkersLogNoCommit(w: World, a: Action, d: DispatchId)
    requires Enabled(w, a) && d in w.db.receipts && ByWorker(a)
    ensures LogsNoCommit(w.db.receipts[d], ReceiptNext(w, a, d)) && SameBond(w.db.receipts[d], ReceiptNext(w, a, d))
  {
    var r := w.db.receipts[d];
    if a.GiveUp? {
      ReportsLogNoCommit(r, Done, w.workers[a.worker].stage.up, a.now);
    } else {
      ReportsLogNoCommit(r, w.workers[a.worker].stage.status, BoardAccessRevoked, a.now);
    }
  }

  /** Every action but a commit only appends other events, and keeps what the receipt is bound to. */
  lemma OthersLogNoCommit(w: World, a: Action, d: DispatchId)
    requires Enabled(w, a) && d in w.db.receipts && !a.CommitEffect?
    ensures LogsNoCommit(w.db.receipts[d], ReceiptNext(w, a, d)) && SameBond(w.db.receipts[d], ReceiptNext(w, a, d))
  {
    var r := w.db.receipts[d];
    if ByWorker(a) {
      WorkersLogNoCommit(w, a, d);
    } else if a.ObserveRuntime? {
      ReportsLogNoCommit(r, a.status, BoardAccessRevoked, a.now);
    } else if a.ReconcileReceipt? {
      ReconcilingLogsNoCommit(r, a.now);
    }
  }

  lemma OthersEvolve(w: World, a: Action, d: DispatchId)
    requires Enabled(w, a) && d in w.db.receipts && !a.CommitEffect? && StatusAgrees(w.db.receipts[d])
    ensures Evolves(w, a, d, w.db.receipts[d], ReceiptNext(w, a, d))
  {
    OthersLogNoCommit(w, a, d);
  }

  lemma CommitsEvolve(w: World, a: Action, d: DispatchId)
    requires Inv(w) && Enabled(w, a) && d in w.db.receipts && a.CommitEffect?
    ensures Evolves(w, a, d, w.db.receipts[d], ReceiptNext(w, a, d))
  {
    CommitNeedsLiveGenerations(w, a);
  }

  lemma ReceiptEvolves(w: World, a: Action, w': World, d: DispatchId)
    requires Inv(w) && Step(w, a, w') && d in w.db.receipts
    ensures d in w'.db.receipts && Evolves(w, a, d, w.db.receipts[d], w'.db.receipts[d])
  {
    NextReceipt(w, a, d);
    assert ReceiptAgrees(w.facts, w.db.leases, w.db.receipts[d]);
    if a.CommitEffect? {
      CommitsEvolve(w, a, d);
    } else {
      OthersEvolve(w, a, d);
    }
  }

  // ---- outcome_unknown is final for the effect ----

  lemma UnknownStepStaysUncommitted(w: World, a: Action, w': World, d: DispatchId)
    requires Inv(w) && Step(w, a, w') && d in w.db.receipts
    requires w.db.receipts[d].execution == OutcomeUnknown
    ensures d in w'.db.receipts && w'.db.receipts[d].execution == OutcomeUnknown
    ensures w.db.receipts[d].effect != Committed ==> w'.db.receipts[d].effect != Committed
    ensures HasCommit(w'.db.receipts[d]) ==> HasCommit(w.db.receipts[d])
  {
    ReceiptEvolves(w, a, w', d);
    var r, r' := w.db.receipts[d], w'.db.receipts[d];
    if HasCommit(r') {
      var i :| 0 <= i < |r'.events| && IsCommit(r'.events[i]);
      assert i < |r.events| && r.events[i] == r'.events[i];
    }
  }

  /** Once unknown and uncommitted, a receipt is never committed, whatever is interleaved. */
  lemma UnknownOutcomeNeverCommits(ws: seq<World>, acts: seq<Action>, i: nat, j: nat, d: DispatchId)
    requires IsRun(ws, acts) && i <= j < |ws| && d in ws[i].db.receipts
    requires ws[i].db.receipts[d].execution == OutcomeUnknown && ws[i].db.receipts[d].effect != Committed
    ensures d in ws[j].db.receipts && ws[j].db.receipts[d].execution == OutcomeUnknown
    ensures ws[j].db.receipts[d].effect != Committed
    ensures HasCommit(ws[j].db.receipts[d]) ==> HasCommit(ws[i].db.receipts[d])
  {
    var had := HasCommit(ws[i].db.receipts[d]);
    var p := (w: World) =>
      d in w.db.receipts && w.db.receipts[d].execution == OutcomeUnknown
      && w.db.receipts[d].effect != Committed && (HasCommit(w.db.receipts[d]) ==> had);
    forall k | i <= k < j && p(ws[k]) ensures p(ws[k + 1]) {
      RunInvariant(ws, acts, k);
      UnknownStepStaysUncommitted(ws[k], acts[k], ws[k + 1], d);
    }
    Persists(ws, i, j, p);
  }

  // ---- one committed effect per generation ----

  predicate Binds(r: Receipt, g: Generation) {
    exists b :: b in r.bindings && b.generation == g
  }

  predicate CommittedAt(w: World, g: Generation, d: DispatchId, i: int) {
    d in w.db.receipts && Binds(w.db.receipts[d], g)
    && 0 <= i < |w.db.receipts[d].events| && IsCommit(w.db.receipts[d].events[i])
  }

  ghost predicate AtMostOneCommit(w: World, g: Generation) {
    forall d, e, i, j :: CommittedAt(w, g, d, i) && CommittedAt(w, g, e, j) ==> d == e && i == j
  }

  lemma CommittedMeansDead(w: World, g: Generation, d: DispatchId, i: int)
    requires Inv(w)
    ensures CommittedAt(w, g, d, i) ==> Dead(w.db.leases, g)
  {
    if CommittedAt(w, g, d, i) {
      assert ReceiptAgrees(w.facts, w.db.leases, w.db.receipts[d]);
      assert HasCommit(w.db.receipts[d]);
    }
  }

  lemma NewReceiptHasNoCommit(w: World, a: Action, w': World, d: DispatchId)
    requires Step(w, a, w') && d !in w.db.receipts && d in w'.db.receipts
    ensures !HasCommit(w'.db.receipts[d])
  {
    assert a.AcceptReceipt? && w'.db.receipts[d] == NewReceipt(a.request, a.now);
  }

  lemma CommitIsTheFirst(w: World, a: Action, w': World, g: Generation, d: DispatchId, i: int)
    requires Inv(w) && Step(w, a, w') && CommittedAt(w', g, d, i) && !CommittedAt(w, g, d, i)
    ensures CommitsTo(w, a, d) && forall e, j :: !CommittedAt(w, g, e, j)
  {
    if d !in w.db.receipts {
      NewReceiptHasNoCommit(w, a, w', d);
    }
    ReceiptEvolves(w, a, w', d);
    var r := w.db.receipts[d];
    var b :| b in r.bindings && b.generation == g;
    assert b.context in w.db.leases && w.db.leases[b.context].generation == g;
    assert !Dead(w.db.leases, g);
    forall e, j ensures !CommittedAt(w, g, e, j) {
      CommittedMeansDead(w, g, e, j);
    }
  }

  lemma CommitStaysUnique(w: World, a: Action, w': World, g: Generation)
    requires Inv(w) && Step(w, a, w') && Inv(w') && AtMostOneCommit(w, g)
    ensures AtMostOneCommit(w', g)
  {
    forall d, e, i, j | CommittedAt(w', g, d, i) && CommittedAt(w', g, e, j) ensures d == e && i == j {
      if !CommittedAt(w, g, d, i) {
        CommitIsTheFirst(w, a, w', g, d, i);
      }
      if !CommittedAt(w, g, e, j) {
        CommitIsTheFirst(w, a, w', g, e, j);
      }
      assert d == e;
      assert ReceiptAgrees(w'.facts, w'.db.leases, w'.db.receipts[d]);
    }
  }

  /** No generation ever pays for two board effects, however many receipts name it. */
  lemma {:induction false} OneCommitPerGeneration(ws: seq<World>, acts: seq<Action>, i: nat, g: Generation)
    requires IsRun(ws, acts) && i < |ws|
    ensures AtMostOneCommit(ws[i], g)
  {
    if i > 0 {
      OneCommitPerGeneration(ws, acts, i - 1, g);
      RunInvariant(ws, acts, i - 1);
      RunInvariant(ws, acts, i);
      CommitStaysUnique(ws[i - 1], acts[i - 1], ws[i], g);
    }
  }

  ghost predicate RunsDistinct(w: World) {
    forall d, e :: d in w.db.receipts && e in w.db.receipts && w.db.receipts[d].run == w.db.receipts[e].run ==> d == e
  }

  lemma NewReceiptHasNewRun(w: World, a: Action, w': World, d: DispatchId, e: DispatchId)
    requires Step(w, a, w') && d !in w.db.receipts && d in w'.db.receipts && e in w'.db.receipts && e != d
    ensures e in w.db.receipts && w.db.receipts[e].run != w'.db.receipts[d].run
  {
    assert a.AcceptReceipt? && w'.db.receipts[d] == NewReceipt(a.request, a.now);
  }

  lemma RunsStayDistinct(w: World, a: Action, w': World)
    requires Inv(w) && Step(w, a, w') && RunsDistinct(w)
    ensures RunsDistinct(w')
  {
    forall d, e | d in w'.db.receipts && e in w'.db.receipts && w'.db.receipts[d].run == w'.db.receipts[e].run
      ensures d == e
    {
      if d in w.db.receipts {
        ReceiptEvolves(w, a, w', d);
      }
      if e in w.db.receipts {
        ReceiptEvolves(w, a, w', e);
      }
      if d != e && d !in w.db.receipts {
        NewReceiptHasNewRun(w, a, w', d, e);
      } else if d != e && e !in w.db.receipts {
        NewReceiptHasNewRun(w, a, w', e, d);
      }
    }
  }

  lemma {:induction false} RunRunsDistinct(ws: seq<World>, acts: seq<Action>, i: nat)
    requires IsRun(ws, acts) && i < |ws|
    ensures RunsDistinct(ws[i])
  {
    if i > 0 {
      RunRunsDistinct(ws, acts, i - 1);
      RunInvariant(ws, acts, i - 1);
      assert Step(ws[i - 1], acts[i - 1], ws[i - 1 + 1]);
      RunsStayDistinct(ws[i - 1], acts[i - 1], ws[i]);
    }
  }

  /** In any reachable state a generation is bound by one receipt at most. */
  lemma OneReceiptPerGeneration(ws: seq<World>, acts: seq<Action>, i: nat, g: Generation, d: DispatchId, e: DispatchId)
    requires IsRun(ws, acts) && i < |ws| && d in ws[i].db.receipts && e in ws[i].db.receipts
    requires Binds(ws[i].db.receipts[d], g) && Binds(ws[i].db.receipts[e], g)
    ensures d == e
  {
    RunInvariant(ws, acts, i);
    RunRunsDistinct(ws, acts, i);
    var w := ws[i];
    assert ReceiptAgrees(w.facts, w.db.leases, w.db.receipts[d]) && ReceiptAgrees(w.facts, w.db.leases, w.db.receipts[e]);
  }

  /**
   * Every commit of a run is asked for with the capability of the receipt's own mount while the
   * receipt's run holds every bound generation live; it is recorded as evidence, and releases them.
   */
  lemma CommitHoldsEveryGeneration(ws: seq<World>, acts: seq<Action>, i: nat, d: DispatchId)
    requires IsRun(ws, acts) && i < |acts|
    requires d in ws[i + 1].db.receipts && HasCommit(ws[i + 1].db.receipts[d])
    requires d in ws[i].db.receipts ==> !HasCommit(ws[i].db.receipts[d])
    ensures CommitsTo(ws[i], acts[i], d)
    ensures CommittedWith(ws[i].db.receipts[d], ws[i + 1].db.receipts[d], acts[i].version, acts[i].now)
    ensures ReleasesBound(ws[i].db.leases, ws[i + 1].db.leases, ws[i].db.receipts[d].bindings, acts[i].now)
  {
    RunInvariant(ws, acts, i);
    RunInvariant(ws, acts, i + 1);
    var r := ws[i + 1].db.receipts[d];
    var n :| 0 <= n < |r.events| && IsCommit(r.events[n]);
    assert ReceiptAgrees(ws[i + 1].facts, ws[i + 1].db.leases, r);
    var b := r.bindings[0];
    assert b in r.bindings;
    assert CommittedAt(ws[i + 1], b.generation, d, n);
    CommitIsTheFirst(ws[i], acts[i], ws[i + 1], b.generation, d, n);
    CommitWrites(ws[i], acts[i], ws[i + 1]);
  }

  lemma CommitWrites(w: World, a: Action, w': World)
    requires Step(w, a, w') && a.CommitEffect?
    ensures a.dispatch in w.db.receipts && a.dispatch in w'.db.receipts
    ensures CommittedWith(w.db.receipts[a.dispatch], w'.db.receipts[a.dispatch], a.version, a.now)
    ensures ReleasesBound(w.db.leases, w'.db.leases, w.db.receipts[a.dispatch].bindings, a.now)
  {
    ReleaseAllExactly(w.db.leases, w.db.receipts[a.dispatch].bindings, a.now);
  }

  /** A commit may be made in exactly these states; every other attempt is refused. */
  lemma CommitIsOpenExactly(ws: seq<World>, acts: seq<Action>, i: nat, a: Action)
    requires IsRun(ws, acts) && i < |ws| && a.CommitEffect?
    ensures Enabled(ws[i], a) <==> CommitsTo(ws[i], a, a.dispatch)
  {
    var w := ws[i];
    RunInvariant(ws, acts, i);
    CommitIsRefusedExactly(w.db, a.board, a.drawing, a.dispatch, a.run, a.token, a.now);
    if Enabled(w, a) {
      CommitNeedsLiveGenerations(w, a);
    } else if CommitsTo(w, a, a.dispatch) {
      assert EveryBoundLive(w.db.leases, w.db.receipts[a.dispatch].bindings, a.run, a.now);
    }
  }

  // ---- generations ----

  /** A generation belongs to one Context, run, initiator and horizon for ever. */
  lemma GenerationKeepsItsFacts(ws: seq<World>, acts: seq<Action>, i: nat, j: nat, c: ContextId, e: ContextId)
    requires IsRun(ws, acts) && i <= j < |ws|
    requires c in ws[i].db.leases && e in ws[j].db.leases
    requires ws[i].db.leases[c].generation == ws[j].db.leases[e].generation
    ensures c == e
    ensures FactOf(c, ws[i].db.leases[c]) == FactOf(c, ws[j].db.leases[c])
    ensures ws[i].db.leases[c].releasedAt.Some? ==> ws[j].db.leases[c].releasedAt.Some?
  {
    RunInvariant(ws, acts, i);
    RunInvariant(ws, acts, j);
    RunIsLater(ws, acts, i, j);
    var g := ws[i].db.leases[c].generation;
    assert RowAgrees(ws[i].facts, c, ws[i].db.leases[c]) && RowAgrees(ws[j].facts, e, ws[j].db.leases[e]);
    if ws[i].db.leases[c].releasedAt.Some? {
      forall x | x in ws[i].db.leases && ws[i].db.leases[x].generation == g ensures x == c {
        assert RowAgrees(ws[i].facts, x, ws[i].db.leases[x]);
      }
      assert Dead(ws[i].db.leases, g);
    }
  }

  predicate InNoRow(w: World, g: Generation) {
    forall e :: e in w.db.leases ==> w.db.leases[e].generation != g
  }

  predicate WritesGrant(a: Action) {
    a.TryCreate? || a.TryRegrant? || a.WriteTransfer?
  }

  /** Rows stay; none changes but to be released. */
  ghost predicate OnlyReleases(rows: Leases, rows': Leases) {
    rows'.Keys == rows.Keys
    && forall c :: c in rows ==>
         rows'[c] == rows[c] || (rows[c].releasedAt.None? && rows'[c] == rows[c].(releasedAt := rows'[c].releasedAt))
  }

  lemma TablesOnlyRelease(w: World, a: Action)
    requires Enabled(w, a) && !OnLeases(a)
    ensures OnlyReleases(w.db.leases, NextTables(w, a).leases)
  {
  }

  lemma ReceiptActionsKeepRows(w: World, a: Action, w': World, c: ContextId)
    requires Step(w, a, w') && !OnLeases(a)
    ensures c in w.db.leases <==> c in w'.db.leases
    ensures c in w.db.leases ==>
              && w'.db.leases[c].generation == w.db.leases[c].generation
              && w'.db.leases[c].horizon == w.db.leases[c].horizon
              && (w.db.leases[c].releasedAt.Some? ==> w'.db.leases[c].releasedAt.Some?)
  {
    TablesOnlyRelease(w, a);
  }

  lemma OthersKeepGenerations(w: World, a: Action, w': World, c: ContextId)
    requires Step(w, a, w') && !WritesGrant(a) && c in w'.db.leases
    ensures c in w.db.leases && w.db.leases[c].generation == w'.db.leases[c].generation
  {
    if !OnLeases(a) {
      ReceiptActionsKeepRows(w, a, w', c);
    }
  }

  lemma GrantsKeepOtherRows(w: World, a: Action, w': World, c: ContextId)
    requires Step(w, a, w') && WritesGrant(a) && c in w'.db.leases
    requires c in w.db.leases ==> w.db.leases[c].generation != w'.db.leases[c].generation
    ensures DrawnBy(w.calls[a.call]) == Some(w'.db.leases[c].generation)
  {
  }

  lemma NewGenerationIsUnwritten(w: World, a: Action, w': World, c: ContextId)
    requires Inv(w) && Step(w, a, w') && c in w'.db.leases
    requires c in w.db.leases ==> w.db.leases[c].generation != w'.db.leases[c].generation
    ensures w'.db.leases[c].generation !in w.facts
  {
    if WritesGrant(a) {
      GrantsKeepOtherRows(w, a, w', c);
      assert CallAgrees(w, w.calls[a.call]);
    } else {
      OthersKeepGenerations(w, a, w', c);
    }
  }

  /** A generation that has left its row never returns to any row. */
  lemma ReplacedGenerationNeverReturns(ws: seq<World>, acts: seq<Action>, i: nat, j: nat, c: ContextId)
    requires IsRun(ws, acts) && i < j < |ws|
    requires c in ws[i].db.leases && c in ws[i + 1].db.leases
    requires ws[i].db.leases[c].generation != ws[i + 1].db.leases[c].generation
    ensures InNoRow(ws[j], ws[i].db.leases[c].generation)
  {
    var g := ws[i].db.leases[c].generation;
    LeavesEveryRow(ws, acts, i, c);
    var p := (w: World) => g in w.facts && InNoRow(w, g);
    forall k | i + 1 <= k < j && p(ws[k]) ensures p(ws[k + 1]) {
      RunInvariant(ws, acts, k);
      StaysOutOfRows(ws[k], acts[k], ws[k + 1], g);
    }
    Persists(ws, i + 1, j, p);
  }

  lemma LeavesEveryRow(ws: seq<World>, acts: seq<Action>, i: nat, c: ContextId)
    requires IsRun(ws, acts) && i + 1 < |ws| && c in ws[i].db.leases && c in ws[i + 1].db.leases
    requires ws[i].db.leases[c].generation != ws[i + 1].db.leases[c].generation
    ensures ws[i].db.leases[c].generation in ws[i + 1].facts && InNoRow(ws[i + 1], ws[i].db.leases[c].generation)
  {
    RunInvariant(ws, acts, i);
    RunInvariant(ws, acts, i + 1);
    RunAdvances(ws, acts, i);
    var g := ws[i].db.leases[c].generation;
    assert RowAgrees(ws[i].facts, c, ws[i].db.leases[c]);
    var w' := ws[i + 1];
    forall e | e in w'.db.leases ensures w'.db.leases[e].generation != g {
      assert RowAgrees(w'.facts, e, w'.db.leases[e]);
    }
  }

  lemma StaysOutOfRows(w: World, a: Action, w': World, g: Generation)
    requires Inv(w) && Step(w, a, w') && g in w.facts && InNoRow(w, g)
    ensures g in w'.facts && InNoRow(w', g)
  {
    ActionKeepsInv(w, a, w');
    forall e | e in w'.db.leases ensures w'.db.leases[e].generation != g {
      if e !in w.db.leases || w.db.leases[e].generation != w'.db.leases[e].generation {
        NewGenerationIsUnwritten(w, a, w', e);
      }
    }
  }

  /**
   * A row changes hands only if it was not live at the acquiring call's clock, or by a
   * transfer its recorded initiator (or an override) asked for while it was live.
   */
  lemma ReplacementIsAuthorized(w: World, a: Action, w': World, c: ContextId)
    requires Step(w, a, w') && c in w.db.leases
    ensures c in w'.db.leases
    ensures w'.db.leases[c].generation != w.db.leases[c].generation ==>
              var row, call := w.db.leases[c], w.calls[a.call];
              || (a.TryRegrant? && (row.releasedAt != None || row.expiresAt < call.grant.acquiredAt)
                  && w'.db.leases[c] == call.grant)
              || (a.WriteTransfer? && row.releasedAt == None && call.now <= row.expiresAt
                  && (call.caller.override || call.caller.user == row.initiator)
                  && call.generation == row.generation
                  && w'.db.leases[c] == Lease(call.drawn, call.to.holder, call.to.initiator, call.to.run, call.now,
                                              call.expiresAt, row.horizon, None))
    ensures !a.TryRegrant? ==> w'.db.leases[c].horizon == w.db.leases[c].horizon
    ensures !a.TryRegrant? && w.db.leases[c].releasedAt.Some? ==> w'.db.leases[c].releasedAt.Some?
  {
    if !OnLeases(a) {
      ReceiptActionsKeepRows(w, a, w', c);
    }
  }

  predicate RegrantsTo(w: World, a: Action, c: ContextId) {
    a.TryRegrant? && a.call in w.calls && w.calls[a.call].context == c
  }

  /** However often it is renewed and transferred, a lease keeps the horizon it was acquired with. */
  lemma ChainKeepsItsHorizon(ws: seq<World>, acts: seq<Action>, i: nat, j: nat, c: ContextId)
    requires IsRun(ws, acts) && i <= j < |ws| && c in ws[i].db.leases
    requires forall k :: i <= k < j ==> !RegrantsTo(ws[k], acts[k], c)
    ensures c in ws[j].db.leases && ws[j].db.leases[c].horizon == ws[i].db.leases[c].horizon
    ensures ws[j].db.leases[c].expiresAt <= ws[i].db.leases[c].horizon
  {
    var horizon := ws[i].db.leases[c].horizon;
    var p := (w: World) => c in w.db.leases && w.db.leases[c].horizon == horizon;
    forall k | i <= k < j && p(ws[k]) ensures p(ws[k + 1]) {
      OtherRegrantsLeaveHorizon(ws[k], acts[k], ws[k + 1], c);
    }
    Persists(ws, i, j, p);
    RunInvariant(ws, acts, j);
    assert RowAgrees(ws[j].facts, c, ws[j].db.leases[c]);
  }

  lemma OtherRegrantsLeaveHorizon(w: World, a: Action, w': World, c: ContextId)
    requires Step(w, a, w') && c in w.db.leases
    requires !RegrantsTo(w, a, c)
    ensures c in w'.db.leases && w'.db.leases[c].horizon == w.db.leases[c].horizon
  {
    if !a.TryRegrant? {
      ReplacementIsAuthorized(w, a, w', c);
    }
  }

  // ---- the outbox and the foreign start ----

  /** Any number of workers and restarts: at most one foreign start, and the payload is kept exactly while queued. */
  lemma StartedAtMostOnce(ws: seq<World>, acts: seq<Action>, i: nat, d: DispatchId)
    requires IsRun(ws, acts) && i < |ws|
    ensures ws[i].starts[d] <= 1
    ensures d in ws[i].db.receipts ==>
              var r := ws[i].db.receipts[d];
              (r.execution == Queued <==> r.outbox.state == Waiting || r.outbox.state == Sending)
              && (r.execution == Queued <==> r.outbox.payload.Some?)
              && (r.outbox.state == Waiting ==> ws[i].starts[d] == 0)
  {
    RunInvariant(ws, acts, i);
    if d in ws[i].db.receipts {
      assert ReceiptAgrees(ws[i].facts, ws[i].db.leases, ws[i].db.receipts[d]);
    }
  }

  // ---- finality ----

  lemma TerminalIsForever(ws: seq<World>, acts: seq<Action>, i: nat, j: nat, d: DispatchId)
    requires IsRun(ws, acts) && i <= j < |ws| && d in ws[i].db.receipts && IsTerminal(ws[i].db.receipts[d].execution)
    ensures d in ws[j].db.receipts && ws[j].db.receipts[d].execution == ws[i].db.receipts[d].execution
    ensures ws[j].db.receipts[d].executionTerminalAt == ws[i].db.receipts[d].executionTerminalAt
  {
    var r := ws[i].db.receipts[d];
    var p := (w: World) => d in w.db.receipts && w.db.receipts[d].execution == r.execution
                           && w.db.receipts[d].executionTerminalAt == r.executionTerminalAt;
    forall k | i <= k < j && p(ws[k]) ensures p(ws[k + 1]) {
      RunInvariant(ws, acts, k);
      ReceiptEvolves(ws[k], acts[k], ws[k + 1], d);
    }
    Persists(ws, i, j, p);
  }

  /** Timestamps, evidence, log numbering and dead generations in every reachable state. */
  lemma ReachableReceipt(ws: seq<World>, acts: seq<Action>, i: nat, d: DispatchId)
    requires IsRun(ws, acts) && i < |ws| && d in ws[i].db.receipts
    ensures var r := ws[i].db.receipts[d];
            && (r.executionTerminalAt.Some? <==> IsTerminal(r.execution))
            && (r.effectTerminalAt.Some? <==> r.effect != Pending)
            && (r.effect != Pending || r.execution == OutcomeUnknown ==> AllDead(ws[i].db.leases, r.bindings))
            && (r.evidence.Some? <==> HasCommit(r))
            && |r.events| == r.counter
            && forall n :: 0 <= n < |r.events| ==> r.events[n].sequence == n + 1
  {
    RunInvariant(ws, acts, i);
    assert ReceiptAgrees(ws[i].facts, ws[i].db.leases, ws[i].db.receipts[d]);
  }

  /**
   * A resolved effect survives every action, except that a worker giving up on a receipt
   * still queued overwrites an effect already committed: exactly then.
   */
  lemma ResolvedEffectIsFinalUnless(ws: seq<World>, acts: seq<Action>, i: nat, d: DispatchId)
    requires IsRun(ws, acts) && i < |acts| && d in ws[i].db.receipts && ws[i].db.receipts[d].effect != Pending
    ensures Step(ws[i], acts[i], ws[i + 1]) && d in ws[i + 1].db.receipts
    ensures ws[i + 1].db.receipts[d].effect != ws[i].db.receipts[d].effect <==>
              GivesUpOn(ws[i], acts[i], d) && ws[i].db.receipts[d].execution == Queued
              && ws[i].db.receipts[d].effect == Committed
  {
    RunInvariant(ws, acts, i);
    ReceiptEvolves(ws[i], acts[i], ws[i + 1], d);
  }

  // ---- the exception is reachable ----

  ghost predicate Reachable(w: World) {
    exists ws, acts :: IsRun(ws, acts) && ws[|acts|] == w
  }

  lemma Take(w: World, a: Action) returns (w': World)
    requires Reachable(w) && Enabled(w, a)
    ensures Reachable(w') && w' == Next(w, a)
  {
    var ws, acts :| IsRun(ws, acts) && ws[|acts|] == w;
    w' := Next(w, a);
    var ws', acts' := ws + [w'], acts + [a];
    forall i | 0 <= i < |acts'| ensures Step(ws'[i], acts'[i], ws'[i + 1]) {
      if i < |acts| {
        assert ws'[i] == ws[i] && ws'[i + 1] == ws[i + 1] && acts'[i] == acts[i];
      } else {
        assert ws'[i] == w && acts'[i] == a && ws'[i + 1] == w';
      }
    }
    assert IsRun(ws', acts') && ws'[|acts'|] == w';
  }

  /** A waiting receipt is claimed, loaded, and then found without board access. */
  lemma ClaimThenLoseAccess(w: World, k: WorkerId, d: DispatchId, now: Time) returns (w': World)
    requires Reachable(w) && k !in w.workers && CanClaim(w.db, d) && w.db.receipts[d].outbox.payload.Some?
    ensures Reachable(w') && w'.db == Claim(w.db, d, now)
    ensures k in w'.workers && w'.workers[k] == Worker(d, Giving(BoardAccessRevoked))
  {
    var w1 := Take(w, ClaimOutbox(k, d, now));
    assert w1.workers[k] == Worker(d, Claimed);
    var w2 := Take(w1, LoadDispatch(k));
    assert w2.workers[k] == Worker(d, Loaded);
    w' := Take(w2, Authorize(k, Some(BoardAccessRevoked)));
  }

  lemma CommitWhileQueued(w: World, d: DispatchId, board: Board, token: Token, now: Time) returns (w': World)
    requires Reachable(w) && IsQueued(w.db, d)
    requires RefuseCommit(w.db, board, w.db.receipts[d].drawing, d, w.db.receipts[d].run, token, now).None?
    ensures Reachable(w') && w'.workers == w.workers && d in w'.db.receipts
    ensures w'.db.receipts[d] == CommittedReceipt(w.db.receipts[d], 1, now)
  {
    var r := w.db.receipts[d];
    w' := Take(w, CommitEffect(board, r.drawing, d, r.run, token, 1, now));
  }

  lemma GiveUpOnCommitted(w: World, k: WorkerId, d: DispatchId, r: Receipt, now: Time) returns (w': World)
    requires Reachable(w) && k in w.workers && w.workers[k] == Worker(d, Giving(BoardAccessRevoked))
    requires d in w.db.receipts && w.db.receipts[d] == CommittedReceipt(r, 1, now) && r.execution == Queued
    ensures Reachable(w') && Overwritten(w', d)
  {
    w' := Take(w, GiveUp(k, now));
    assert w'.db.receipts[d] == FailedReceipt(w.db.receipts[d], BoardAccessRevoked, now);
    assert IsCommit(w'.db.receipts[d].events[|r.events|]);
  }

  lemma ClaimLeavesCommit(db: Db, board: Board, d: DispatchId, token: Token, now: Time)
    requires CanClaim(db, d) && IsQueued(db, d)
    requires RefuseCommit(db, board, db.receipts[d].drawing, d, db.receipts[d].run, token, now).None?
    ensures IsQueued(Claim(db, d, now), d)
    ensures var r := Claim(db, d, now).receipts[d];
            RefuseCommit(Claim(db, d, now), board, r.drawing, d, r.run, token, now).None?
  {
  }

  /** A waiting receipt that may commit now: it is claimed, committed, and then given up on. */
  lemma CommitThenGiveUp(w: World, k: WorkerId, d: DispatchId, board: Board, token: Token, now: Time) returns (w': World)
    requires Reachable(w) && k !in w.workers && CanClaim(w.db, d) && IsQueued(w.db, d)
    requires w.db.receipts[d].outbox.payload.Some?
    requires RefuseCommit(w.db, board, w.db.receipts[d].drawing, d, w.db.receipts[d].run, token, now).None?
    ensures Reachable(w') && Overwritten(w', d)
  {
    var w1 := ClaimThenLoseAccess(w, k, d, now);
    ClaimLeavesCommit(w.db, board, d, token, now);
    var w2 := CommitWhileQueued(w1, d, board, token, now);
    w' := GiveUpOnCommitted(w2, k, d, w1.db.receipts[d], now);
  }

  /**
   * Acquire, accept, claim, lose board access, commit while still queued, give up: the
   * receipt ends `failed` with effect `failed` although its committed event and evidence stand.
   */
  lemma CommittedEffectIsOverwritten(c: ContextId, g: Generation, h: OrchestratorId, u: UserId, run: RunId, d: DispatchId,
                                     drawing: DrawingId, t: ThreadId, v: RevisionId, token: Token, payload: RuntimeRequest)
    ensures exists w :: Reachable(w) && Overwritten(w, d)
  {
    var board := Board(map[t := Thread(drawing, true, DrawingAudience, None)],
                       map[run := Mount(drawing, v, DrawingAudience, [c], token)], map[c := drawing]);
    var q := Request(drawing, t, t, u, [c], v, run, [Binding(c, g)], [c], payload, 100);
    var acts: seq<Action> := [];
    assert IsRun([Initial()], acts) && [Initial()][|acts|] == Initial();
    var w1 := Take(Initial(), BeginAcquire(0, c, g, h, u, run, 100, 100, 0));
    var w2 := Take(w1, TryCreate(0));
    assert w2.db == Db(map[c := Grant(g, h, u, run, 100, 100, 0)], map[]);
    SampleRequestIsAdmitted(w2.db, board, d, q, c, g);
    var w3 := Take(w2, AcceptReceipt(board, d, q, 0));
    assert w3.db == Db(w2.db.leases, map[d := NewReceipt(q, 0)]);
    var w4 := CommitThenGiveUp(w3, 0, d, board, token, 0);
  }

  ghost predicate Overwritten(w: World, d: DispatchId) {
    d in w.db.receipts && w.db.receipts[d].effect == EffectFailed && w.db.receipts[d].evidence == Some(1)
    && HasCommit(w.db.receipts[d])
  }

  lemma SampleRequestIsAdmitted(db: Db, board: Board, d: DispatchId, q: Request, c: ContextId, g: Generation)
    requires db.receipts == map[] && c in db.leases && db.leases[c].generation == g
    requires db.leases[c].run == q.run && IsLive(db.leases[c], 0)
    requires q.targets == [c] && q.bindings == [Binding(c, g)] && q.allowed == [c]
    requires OriginAllowed(board, q) && PublicThreadAllowed(board, q)
    requires q.run in board.mounts && board.mounts[q.run].allowed == [c] && board.mounts[q.run].drawing == q.drawing
    requires board.mounts[q.run].revision == q.revision && board.mounts[q.run].audience == DrawingAudience
    requires c in board.contexts && board.contexts[c] == q.drawing
    ensures RefuseAccept(db, board, d, q, 0).None?
  {
    assert Elements(q.targets) == {c};
    assert q.bindings[..0] == [];
    assert Admitted(q.bindings) == map[c := g];
  }

  // ---- reconciliation ----

  lemma ReconcileMeetsDeadlines(db: Db, d: DispatchId, now: Time)
    requires d in db.receipts
    ensures d in Reconcile(db, d, now).receipts
    ensures var r := Reconcile(db, d, now).receipts[d];
            !LateExecution(r, now) && !LateEffect(r, now)
    ensures Reconcile(Reconcile(db, d, now), d, now) == Reconcile(db, d, now)
    ensures forall e :: e in db.receipts && e != d ==> Reconcile(db, d, now).receipts[e] == db.receipts[e]
  {
    var once := Reconcile(db, d, now);
    assert Reconcile(once, d, now).receipts == once.receipts;
  }

  // ---- silence ----

  /** A word on this dispatch from the runtime or from the worker that started it. */
  predicate ReportsOn(w: World, a: Action, d: DispatchId)
    requires Enabled(w, a)
  {
    (ByWorker(a) && w.workers[a.worker].dispatch == d) || (a.ObserveRuntime? && a.dispatch == d)
  }

  function DeadlineOf(r: Receipt): Time {
    if r.execution == Queued then r.startDeadline else r.livenessDeadline
  }

  predicate TimesOut(a: Action, d: DispatchId, deadline: Time) {
    a.ReconcileReceipt? && a.dispatch == d && a.now >= deadline
  }

  predicate TimedOut(acts: seq<Action>, i: nat, j: nat, d: DispatchId, deadline: Time) {
    exists k :: i <= k < j && k < |acts| && TimesOut(acts[k], d, deadline)
  }

  ghost predicate Silent(ws: seq<World>, acts: seq<Action>, i: nat, j: nat, d: DispatchId)
    requires IsRun(ws, acts)
  {
    forall k :: i <= k < j && k < |acts| ==> Step(ws[k], acts[k], ws[k + 1]) && !ReportsOn(ws[k], acts[k], d)
  }

  /** Without a report only an overdue reconciliation moves an open execution or its deadline. */
  lemma SilentStep(w: World, a: Action, w': World, d: DispatchId)
    requires Step(w, a, w') && d in w.db.receipts && !IsTerminal(w.db.receipts[d].execution)
    requires !ReportsOn(w, a, d)
    ensures d in w'.db.receipts
    ensures TimesOut(a, d, DeadlineOf(w.db.receipts[d])) ==> w'.db.receipts[d].execution == OutcomeUnknown
    ensures !TimesOut(a, d, DeadlineOf(w.db.receipts[d])) ==>
              w'.db.receipts[d].execution == w.db.receipts[d].execution
              && DeadlineOf(w'.db.receipts[d]) == DeadlineOf(w.db.receipts[d])
  {
    NextReceipt(w, a, d);
  }

  /** The receipt is still in `status` before `deadline`, or has been timed out. */
  predicate Stands(w: World, d: DispatchId, status: Execution, deadline: Time, out: bool) {
    && d in w.db.receipts
    && if out then w.db.receipts[d].execution == OutcomeUnknown
       else w.db.receipts[d].execution == status && DeadlineOf(w.db.receipts[d]) == deadline
  }

  lemma StandsOn(w: World, a: Action, w': World, d: DispatchId, status: Execution, deadline: Time, out: bool)
    requires Inv(w) && Step(w, a, w') && !ReportsOn(w, a, d) && !IsTerminal(status)
    requires Stands(w, d, status, deadline, out)
    ensures Stands(w', d, status, deadline, out || TimesOut(a, d, deadline))
  {
    if out {
      ReceiptEvolves(w, a, w', d);
    } else {
      SilentStep(w, a, w', d);
    }
  }

  lemma TimedOutGrows(acts: seq<Action>, i: nat, j: nat, d: DispatchId, deadline: Time)
    requires i <= j < |acts|
    ensures TimedOut(acts, i, j + 1, d, deadline) == (TimedOut(acts, i, j, d, deadline) || TimesOut(acts[j], d, deadline))
  {
  }

  lemma {:induction false} StandsThroughSilence(
      ws: seq<World>, acts: seq<Action>, i: nat, j: nat, d: DispatchId, status: Execution, deadline: Time)
    requires IsRun(ws, acts) && i <= j < |ws| && Silent(ws, acts, i, j, d)
    requires !IsTerminal(status) && Stands(ws[i], d, status, deadline, false)
    ensures Stands(ws[j], d, status, deadline, TimedOut(acts, i, j, d, deadline))
    decreases j - i
  {
    if i < j {
      var k := j - 1;
      StandsThroughSilence(ws, acts, i, k, d, status, deadline);
      RunInvariant(ws, acts, k);
      TimedOutGrows(acts, i, k, d, deadline);
      StandsOn(ws[k], acts[k], ws[k + 1], d, status, deadline, TimedOut(acts, i, k, d, deadline));
    }
  }

  /**
   * While nobody reports on a dispatch, its open execution stays exactly until some
   * reconciliation reads a clock at or past its deadline, and is unknown from then on.
   */
  lemma SilenceIsTimedExactly(ws: seq<World>, acts: seq<Action>, i: nat, j: nat, d: DispatchId)
    requires IsRun(ws, acts) && i <= j < |ws| && d in ws[i].db.receipts
    requires !IsTerminal(ws[i].db.receipts[d].execution) && Silent(ws, acts, i, j, d)
    ensures d in ws[j].db.receipts
    ensures ws[j].db.receipts[d].execution
            == if TimedOut(acts, i, j, d, DeadlineOf(ws[i].db.receipts[d])) then OutcomeUnknown
               else ws[i].db.receipts[d].execution
  {
    var r := ws[i].db.receipts[d];
    StandsThroughSilence(ws, acts, i, j, d, r.execution, DeadlineOf(r));
  }

  /** A dispatch nobody reports on is queued, payload and all, until a reconciliation 30 seconds after admission. */
  lemma SilenceBecomesUnknown(ws: seq<World>, acts: seq<Action>, i: nat, j: nat)
    requires IsRun(ws, acts) && i < j < |ws| && acts[i].AcceptReceipt?
    requires Silent(ws, acts, i + 1, j, acts[i].dispatch)
    ensures var d := acts[i].dispatch;
            && d in ws[j].db.receipts
            && var r := ws[j].db.receipts[d];
               if TimedOut(acts, i + 1, j, d, acts[i].now + 30_000)
               then r.execution == OutcomeUnknown && r.outbox.payload.None?
               else r.execution == Queued && r.outbox.payload.Some?
  {
    var d := acts[i].dispatch;
    assert Step(ws[i], acts[i], ws[i + 1]);
    assert ws[i + 1].db.receipts[d] == NewReceipt(acts[i].request, acts[i].now);
    SilenceIsTimedExactly(ws, acts, i + 1, j, d);
    StartedAtMostOnce(ws, acts, j, d);
  }

  /** A report at `t` that the receipt takes, and the status it is then in. */
  ghost predicate Reported(w: World, a: Action, d: DispatchId, t: Time, told: Execution)
    requires Enabled(w, a)
  {
    && d in w.db.receipts
    && var e := w.db.receipts[d].execution;
       || (a.AcknowledgeStart? && w.workers[a.worker].dispatch == d && a.now == t && e == Queued
           && told == (match w.workers[a.worker].stage.status case Done => Succeeded case Lost => OutcomeUnknown
                       case Working => RuntimeAcknowledged case Idle => RuntimeAcknowledged
                       case Stuck => RuntimeAcknowledged))
       || (a.ObserveStart? && w.workers[a.worker].dispatch == d && a.now == t && IsActive(e)
           && told == Heard(w.workers[a.worker].stage.status))
       || (a.ObserveRuntime? && a.dispatch == d && a.now == t && IsActive(e) && told == Heard(a.status))
  }

  /** What an active receipt takes a word of the runtime to mean. */
  ghost function Heard(s: RuntimeStatus): Execution {
    match s
    case Working => Running
    case Idle => Running
    case Stuck => Blocked
    case Done => Succeeded
    case Lost => OutcomeUnknown
  }

  lemma ReportedStatus(w: World, a: Action, w': World, d: DispatchId, t: Time, told: Execution)
    requires Step(w, a, w') && Reported(w, a, d, t, told)
    ensures d in w'.db.receipts && w'.db.receipts[d].execution == told && told != Queued
    ensures w'.db.receipts[d].livenessDeadline == t + LIVENESS_WINDOW_MS
  {
    NextReceipt(w, a, d);
  }

  /** A final word stands; any other lasts exactly until a reconciliation 60 seconds of silence later. */
  lemma ReportLastsOneWindow(ws: seq<World>, acts: seq<Action>, i: nat, j: nat, d: DispatchId, t: Time, told: Execution)
    requires IsRun(ws, acts) && i < j < |ws| && Step(ws[i], acts[i], ws[i + 1]) && Reported(ws[i], acts[i], d, t, told)
    requires Silent(ws, acts, i + 1, j, d)
    ensures d in ws[j].db.receipts
    ensures ws[j].db.receipts[d].execution
            == if !IsTerminal(told) && TimedOut(acts, i + 1, j, d, t + 60_000) then OutcomeUnknown else told
  {
    ReportedStatus(ws[i], acts[i], ws[i + 1], d, t, told);
    if IsTerminal(told) {
      TerminalIsForever(ws, acts, i + 1, j, d);
    } else {
      SilenceIsTimedExactly(ws, acts, i + 1, j, d);
    }
  }
}
