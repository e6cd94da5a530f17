/** What every reachable state of the interleaved protocol satisfies. */
module DispatchInvariants {
  import opened Wrappers
  import opened ContextLease
  import opened DispatchReceipt
  import opened DispatchProtocol

  /** No row carries the generation unreleased; expiry is not enough, a renewal could undo it. */
  ghost predicate Dead(rows: Leases, g: Generation) {
    forall c :: c in rows && rows[c].generation == g ==> rows[c].releasedAt.Some?
  }

  ghost predicate AllDead(rows: Leases, bindings: seq<Binding>) {
    forall b :: b in bindings ==> Dead(rows, b.generation)
  }

  // ---- leases and calls ----

  ghost predicate RowAgrees(facts: map<Generation, Fact>, c: ContextId, row: Lease) {
    row.generation in facts && facts[row.generation] == FactOf(c, row) && row.expiresAt <= row.horizon
  }

  ghost predicate CallAgrees(w: World, call: Call) {
    match call
    case Acquiring(_, grant, _) =>
      grant.generation in w.drawn && grant.generation !in w.facts
      && grant.releasedAt.None? && grant.expiresAt <= grant.horizon
    case Renewing(_, g, _, _, expiresAt, _) =>
      g in w.facts && expiresAt <= w.facts[g].horizon
    case Transferring(_, g, _, drawn, _, expiresAt, _) =>
      g in w.facts && expiresAt <= w.facts[g].horizon && drawn in w.drawn && drawn !in w.facts
  }

  function DrawnBy(call: Call): Option<Generation> {
    match call
    case Acquiring(_, grant, _) => Some(grant.generation)
    case Renewing(_, _, _, _, _, _) => None
    case Transferring(_, _, _, drawn, _, _, _) => Some(drawn)
  }

  ghost predicate LeaseInv(w: World) {
    && w.facts.Keys <= w.drawn
    && (forall c :: c in w.db.leases ==> RowAgrees(w.facts, c, w.db.leases[c]))
    && (forall k :: k in w.calls ==> CallAgrees(w, w.calls[k]))
    && (forall k, l :: k in w.calls && l in w.calls && k != l && DrawnBy(w.calls[k]).Some? ==>
          DrawnBy(w.calls[k]) != DrawnBy(w.calls[l]))
  }

  // ---- receipts ----

  predicate IsCommit(e: Event) {
    e.kind.EffectCommitted?
  }

  ghost predicate HasCommit(r: Receipt) {
    exists i :: 0 <= i < |r.events| && IsCommit(r.events[i])
  }

  ghost predicate EventsAgree(r: Receipt) {
    && |r.events| == r.counter
    && (forall i :: 0 <= i < |r.events| ==> r.events[i].sequence == i + 1)
    && (forall i, j :: 0 <= i < j < |r.events| ==> !(IsCommit(r.events[i]) && IsCommit(r.events[j])))
    && (r.evidence.Some? <==> HasCommit(r))
  }

  predicate StatusAgrees(r: Receipt) {
    && (r.executionTerminalAt.Some? <==> IsTerminal(r.execution))
    && (r.effectTerminalAt.Some? <==> r.effect != Pending)
    && r.effect in {Pending, Committed, EffectFailed}
    && r.execution != Cancelled
    && (r.effect == Committed ==> r.evidence.Some?)
    && (r.evidence.Some? ==> r.effect != Pending)
    && (r.execution == Queued <==> Unsettled(r.outbox))
    && (r.execution == Queued <==> r.outbox.payload.Some?)
  }

  ghost predicate BindingsAgree(facts: map<Generation, Fact>, r: Receipt) {
    && r.bindings != []
    && forall b :: b in r.bindings ==>
         b.generation in facts && facts[b.generation].context == b.context && facts[b.generation].run == r.run
  }

  ghost predicate ReceiptAgrees(facts: map<Generation, Fact>, rows: Leases, r: Receipt) {
    && BindingsAgree(facts, r)
    && StatusAgrees(r)
    && EventsAgree(r)
    && (r.execution == OutcomeUnknown || r.effect != Pending ==> AllDead(rows, r.bindings))
  }

  ghost predicate ReceiptInv(w: World) {
    forall d :: d in w.db.receipts ==> ReceiptAgrees(w.facts, w.db.leases, w.db.receipts[d])
  }

  // ---- workers ----

  predicate BeforeStart(s: Stage) {
    s == Claimed || s == Loaded || s == Authorized
  }

  predicate WasClaimed(w: World, d: DispatchId) {
    d in w.db.receipts && w.db.receipts[d].outbox.state != Waiting
  }

  ghost predicate WorkerInv(w: World) {
    && (forall k :: k in w.workers ==>
          WasClaimed(w, w.workers[k].dispatch)
          && (BeforeStart(w.workers[k].stage) ==> w.starts[w.workers[k].dispatch] == 0))
    && (forall k, l :: k in w.workers && l in w.workers && k != l ==>
          w.workers[k].dispatch != w.workers[l].dispatch)
    && (forall d :: w.starts[d] <= 1)
    && (forall d :: w.starts[d] > 0 ==> WasClaimed(w, d))
  }

  ghost predicate Inv(w: World) {
    LeaseInv(w) && ReceiptInv(w) && WorkerInv(w)
  }

  // ---- what only ever grows ----

  /** Written generations keep their facts, and dead ones stay dead. */
  ghost predicate Later(w: World, w': World) {
    && (forall g :: g in w.facts ==> g in w'.facts && w'.facts[g] == w.facts[g])
    && (forall g :: g in w.facts && Dead(w.db.leases, g) ==> Dead(w'.db.leases, g))
  }

  lemma ReleaseAllKills(rows: Leases, facts: map<Generation, Fact>, r: Receipt, now: Time)
    requires forall c :: c in rows ==> RowAgrees(facts, c, rows[c])
    requires BindingsAgree(facts, r)
    ensures AllDead(ReleaseAll(rows, r.bindings, now), r.bindings)
  {
    var after := ReleaseAll(rows, r.bindings, now);
    forall b, c | b in r.bindings && c in after && after[c].generation == b.generation
      ensures after[c].releasedAt.Some?
    {
      assert b == Binding(c, rows[c].generation);
    }
  }

  lemma ReleaseAllKeepsRows(w: World, bindings: seq<Binding>, now: Time)
    requires LeaseInv(w)
    ensures LeaseInv(w.(db := w.db.(leases := ReleaseAll(w.db.leases, bindings, now))))
    ensures Later(w, w.(db := w.db.(leases := ReleaseAll(w.db.leases, bindings, now))))
  {
    var w' := w.(db := w.db.(leases := ReleaseAll(w.db.leases, bindings, now)));
    forall k | k in w'.calls ensures CallAgrees(w', w'.calls[k]) {
      assert CallAgrees(w, w.calls[k]);
    }
  }

  /** A grant of a generation never written before ends the call that drew it. */
  lemma GrantKeepsLeases(w: World, k: CallId, c: ContextId, row: Lease)
    requires LeaseInv(w) && k in w.calls
    requires DrawnBy(w.calls[k]) == Some(row.generation) && row.expiresAt <= row.horizon
    ensures LeaseInv(EndCall(WriteGrant(w, c, row), k)) && Later(w, EndCall(WriteGrant(w, c, row), k))
  {
    var w' := EndCall(WriteGrant(w, c, row), k);
    assert CallAgrees(w, w.calls[k]);
    forall l | l in w'.calls ensures CallAgrees(w', w'.calls[l]) {
      assert CallAgrees(w, w.calls[l]);
    }
    forall e | e in w'.db.leases ensures RowAgrees(w'.facts, e, w'.db.leases[e]) {
      assert e != c ==> RowAgrees(w.facts, e, w.db.leases[e]);
    }
    forall g | g in w.facts && Dead(w.db.leases, g) ensures Dead(w'.db.leases, g) {
    }
  }

  lemma CreateKeepsLeases(w: World, k: CallId)
    requires LeaseInv(w) && k in w.calls && w.calls[k].Acquiring?
    ensures LeaseInv(NextCreate(w, k)) && Later(w, NextCreate(w, k))
  {
    var call := w.calls[k];
    assert CallAgrees(w, call);
    if call.context !in w.db.leases {
      GrantKeepsLeases(w, k, call.context, call.grant);
    } else {
      var w' := NextCreate(w, k);
      forall l | l in w'.calls ensures CallAgrees(w', w'.calls[l]) {
        assert CallAgrees(w, w.calls[l]);
      }
    }
  }

  lemma EndCallKeepsLeases(w: World, k: CallId)
    requires LeaseInv(w)
    ensures LeaseInv(EndCall(w, k)) && Later(w, EndCall(w, k))
  {
    var w' := EndCall(w, k);
    forall l | l in w'.calls ensures CallAgrees(w', w'.calls[l]) {
      assert CallAgrees(w, w.calls[l]);
    }
  }

  lemma RegrantKeepsLeases(w: World, k: CallId)
    requires LeaseInv(w) && k in w.calls && w.calls[k].Acquiring?
    ensures LeaseInv(NextRegrant(w, k)) && Later(w, NextRegrant(w, k))
  {
    var call := w.calls[k];
    assert CallAgrees(w, call);
    if CanRegrant(w.db.leases, call.context, call.grant.acquiredAt) {
      GrantKeepsLeases(w, k, call.context, call.grant);
    } else {
      EndCallKeepsLeases(w, k);
    }
  }

  /** The stale horizon is still the row's: the guard matched the generation it was read with. */
  lemma RenewalKeepsLeases(w: World, k: CallId)
    requires LeaseInv(w) && k in w.calls && w.calls[k].Renewing?
    ensures LeaseInv(NextRenewal(w, k)) && Later(w, NextRenewal(w, k))
  {
    var call := w.calls[k];
    assert CallAgrees(w, call);
    if CanRenew(w.db.leases, call.context, call.generation, call.run, call.caller, call.now) {
      var w1 := w.(db := w.db.(leases := Renewed(w.db.leases, call.context, call.expiresAt)));
      assert RowAgrees(w.facts, call.context, w.db.leases[call.context]);
      forall l | l in w1.calls ensures CallAgrees(w1, w1.calls[l]) {
        assert CallAgrees(w, w.calls[l]);
      }
      assert LeaseInv(w1);
      EndCallKeepsLeases(w1, k);
    } else {
      EndCallKeepsLeases(w, k);
    }
  }

  lemma TransferKeepsLeases(w: World, k: CallId)
    requires LeaseInv(w) && k in w.calls && w.calls[k].Transferring?
    ensures LeaseInv(NextTransfer(w, k)) && Later(w, NextTransfer(w, k))
  {
    var call := w.calls[k];
    assert CallAgrees(w, call);
    if CanTransfer(w.db.leases, call.context, call.generation, call.caller, call.now) {
      assert RowAgrees(w.facts, call.context, w.db.leases[call.context]);
      var rows := Transferred(w.db.leases, call.context, call.drawn, call.to, call.expiresAt, call.now);
      GrantKeepsLeases(w, k, call.context, rows[call.context]);
    } else {
      EndCallKeepsLeases(w, k);
    }
  }

  lemma BeginKeepsLeases(w: World, k: CallId, call: Call, drawn: set<Generation>)
    requires LeaseInv(w) && k !in w.calls && drawn !! w.drawn
    requires CallAgrees(w.(drawn := w.drawn + drawn), call)
    requires DrawnBy(call).Some? ==> DrawnBy(call).value in drawn
    ensures LeaseInv(w.(drawn := w.drawn + drawn, calls := w.calls[k := call]))
    ensures Later(w, w.(drawn := w.drawn + drawn, calls := w.calls[k := call]))
  {
    var w' := w.(drawn := w.drawn + drawn, calls := w.calls[k := call]);
    forall l | l in w'.calls ensures CallAgrees(w', w'.calls[l]) {
      assert l != k ==> CallAgrees(w, w.calls[l]);
    }
    forall l, m | l in w'.calls && m in w'.calls && l != m && DrawnBy(w'.calls[l]).Some?
      ensures DrawnBy(w'.calls[l]) != DrawnBy(w'.calls[m])
    {
      assert l != k ==> CallAgrees(w, w.calls[l]);
      assert m != k ==> CallAgrees(w, w.calls[m]);
    }
  }

  lemma AcquireKeepsLeases(w: World, a: Action)
    requires LeaseInv(w) && Enabled(w, a) && a.BeginAcquire?
    ensures LeaseInv(Next(w, a)) && Later(w, Next(w, a))
  {
    var grant := Grant(a.drawn, a.holder, a.initiator, a.run, a.ttl, a.horizon, a.now);
    BeginKeepsLeases(w, a.call, Acquiring(a.context, grant, true), {a.drawn});
  }

  lemma ReadKeepsLeases(w: World, a: Action)
    requires LeaseInv(w) && Enabled(w, a) && (a.ReadForRenew? || a.ReadForTransfer?)
    ensures LeaseInv(Next(w, a)) && Later(w, Next(w, a))
  {
    assert RowAgrees(w.facts, a.context, w.db.leases[a.context]);
    var expiresAt := Earlier(a.now + a.ttl, w.db.leases[a.context].horizon);
    if a.ReadForRenew? {
      var call := Renewing(a.context, a.generation, a.run, a.caller, expiresAt, a.now);
      BeginKeepsLeases(w, a.call, call, {});
      assert w.drawn + {} == w.drawn;
      assert Next(w, a) == w.(drawn := w.drawn + {}, calls := w.calls[a.call := call]);
    } else {
      BeginKeepsLeases(
        w, a.call, Transferring(a.context, a.generation, a.caller, a.drawn, a.to, expiresAt, a.now), {a.drawn});
    }
  }

  lemma ReleaseKeepsLeases(w: World, a: Action)
    requires LeaseInv(w) && Enabled(w, a) && a.ReleaseLease?
    ensures LeaseInv(Next(w, a)) && Later(w, Next(w, a))
  {
    var b := Binding(a.context, a.generation);
    ReleaseAllKeepsRows(w, [b], a.now);
    assert ReleaseAll(w.db.leases, [b], a.now) == Released(w.db.leases, a.context, a.now);
  }

  lemma LeaseActionKeepsLeases(w: World, a: Action)
    requires LeaseInv(w) && Enabled(w, a) && OnLeases(a)
    ensures LeaseInv(Next(w, a)) && Later(w, Next(w, a))
  {
    if a.BeginAcquire? {
      AcquireKeepsLeases(w, a);
    } else if a.ReadForRenew? || a.ReadForTransfer? {
      ReadKeepsLeases(w, a);
    } else if a.TryCreate? {
      CreateKeepsLeases(w, a.call);
    } else if a.TryRegrant? {
      RegrantKeepsLeases(w, a.call);
    } else if a.WriteRenewal? {
      RenewalKeepsLeases(w, a.call);
    } else if a.WriteTransfer? {
      TransferKeepsLeases(w, a.call);
    } else if a.ReleaseLease? {
      ReleaseKeepsLeases(w, a);
    } else {
      EndCallKeepsLeases(w, a.call);
    }
  }
}
