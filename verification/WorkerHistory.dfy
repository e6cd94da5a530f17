/** How a worker came to where it stands: every stage is traced back to the action that led to it. */
module WorkerHistory {
  import opened Wrappers
  import opened ContextLease
  import opened DispatchReceipt
  import opened DispatchProtocol
  import opened DispatchInvariants
  import opened DispatchInduction

  ghost predicate IsHeld(w: World, k: WorkerId, d: DispatchId, stage: Stage) {
    k in w.workers && w.workers[k].dispatch == d && w.workers[k].stage == stage
  }

  ghost predicate PayloadStored(w: World, d: DispatchId) {
    d in w.db.receipts && w.db.receipts[d].outbox.payload != None
  }

  /** Why a worker gave up before the foreign start was acknowledged. */
  ghost predicate GivesUp(w: World, a: Action, k: WorkerId, d: DispatchId, why: Reason) {
    || (a.LoadDispatch? && a.worker == k && IsHeld(w, k, d, Claimed) && !PayloadStored(w, d) && why == InvalidOutboxPayload)
    || (a.Authorize? && a.worker == k && IsHeld(w, k, d, Loaded) && a.refusal == Some(why))
    || (a.StartRuntime? && a.worker == k && IsHeld(w, k, d, Authorized) && a.outcome == NotConnected
        && why == RuntimeUnavailable)
  }

  /** Action `a` at `w` put worker `k` where `to` says. */
  ghost predicate LeadsTo(w: World, a: Action, k: WorkerId, to: Worker) {
    var d := to.dispatch;
    match to.stage
    case Claimed =>
      a.ClaimOutbox? && a.worker == k && a.dispatch == d && d in w.db.receipts && w.db.receipts[d].outbox.state == Waiting
    case Loaded => a.LoadDispatch? && a.worker == k && IsHeld(w, k, d, Claimed) && PayloadStored(w, d)
    case Authorized => a.Authorize? && a.worker == k && IsHeld(w, k, d, Loaded) && a.refusal == None
    case Started(s) => a.StartRuntime? && a.worker == k && IsHeld(w, k, d, Authorized) && a.outcome == RunStarted(s)
    case Acked(s) =>
      a.AcknowledgeStart? && a.worker == k && IsHeld(w, k, d, Started(s)) && s != Done && s != Lost
      && d in w.db.receipts && w.db.receipts[d].execution == Queued
    case Giving(why) => GivesUp(w, a, k, d, why)
  }

  lemma StepLeads(w: World, a: Action, w': World, k: WorkerId)
    requires Step(w, a, w') && k in w'.workers
    ensures (k in w.workers && w.workers[k] == w'.workers[k]) || LeadsTo(w, a, k, w'.workers[k])
  {
    if OnLeases(a) {
      CallsKeepReceipts(w, a);
    } else if Untouched(a) {
      UntouchedWorkers(w, a);
    }
  }

  /** Since `i` the worker has stood where it stands at `j`. */
  ghost predicate StoodSince(ws: seq<World>, i: int, j: nat, k: WorkerId)
    requires 0 <= i <= j < |ws| && k in ws[j].workers
  {
    forall n :: i <= n <= j ==> k in ws[n].workers && ws[n].workers[k] == ws[j].workers[k]
  }

  /** Every worker of a run stands where one earlier action of its own put it, and has stood there since. */
  lemma {:induction false} EveryStageHasACause(ws: seq<World>, acts: seq<Action>, j: nat, k: WorkerId) returns (i: nat)
    requires IsRun(ws, acts) && j < |ws| && k in ws[j].workers
    ensures i < j && LeadsTo(ws[i], acts[i], k, ws[j].workers[k]) && StoodSince(ws, i + 1, j, k)
    decreases j
  {
    i := j - 1;
    assert Step(ws[i], acts[i], ws[i + 1]);
    StepLeads(ws[i], acts[i], ws[j], k);
    if !LeadsTo(ws[i], acts[i], k, ws[j].workers[k]) {
      i := EveryStageHasACause(ws, acts, j - 1, k);
    }
  }

  /** The five actions behind an acknowledged start, one after the other. */
  ghost predicate StartedProperly(ws: seq<World>, acts: seq<Action>, claim: int, load: int, permit: int, start: int, j: nat,
                                  k: WorkerId, d: DispatchId, s: RuntimeStatus) {
    && 0 <= claim < load < permit < start < j <= |acts| < |ws|
    && LeadsTo(ws[claim], acts[claim], k, Worker(d, Claimed))
    && LeadsTo(ws[load], acts[load], k, Worker(d, Loaded))
    && LeadsTo(ws[permit], acts[permit], k, Worker(d, Authorized))
    && LeadsTo(ws[start], acts[start], k, Worker(d, Started(s)))
  }

  /**
   * A worker acknowledges only what its own foreign start reported, after it claimed the outbox
   * of that dispatch, found its payload, and was let through by the authority check.
   */
  lemma AcknowledgedIsWhatStarted(ws: seq<World>, acts: seq<Action>, j: nat)
    requires IsRun(ws, acts) && j < |acts| && acts[j].AcknowledgeStart?
    ensures exists d, s, claim, load, permit, start ::
              IsHeld(ws[j], acts[j].worker, d, Started(s))
              && StartedProperly(ws, acts, claim, load, permit, start, j, acts[j].worker, d, s)
  {
    var k := acts[j].worker;
    assert Step(ws[j], acts[j], ws[j + 1]);
    var d, s := ws[j].workers[k].dispatch, ws[j].workers[k].stage.status;
    var start := EveryStageHasACause(ws, acts, j, k);
    var permit := EveryStageHasACause(ws, acts, start, k);
    var load := EveryStageHasACause(ws, acts, permit, k);
    var claim := EveryStageHasACause(ws, acts, load, k);
    assert IsHeld(ws[j], k, d, Started(s)) && StartedProperly(ws, acts, claim, load, permit, start, j, k, d, s);
  }
}
