/**
 * The one lease row of a Context and the guarded writes that change it.
 *
 * Every operation of the source is a read (possibly stale by the time it is
 * used) followed by one guarded UPDATE.  The guard and the write of each UPDATE
 * are named separately here, so that the same definitions serve the stored
 * table and the interleaved protocol.
 */
module ContextLease {
  import opened Wrappers

  type ContextId(==, !new)
  type Generation(==, !new)
  type RunId(==, !new)
  type UserId(==, !new)
  type OrchestratorId(==, !new)

  /** Milliseconds of the server clock; no clock is ever assumed to be monotone. */
  type Time = int

  datatype Lease = Lease(
    generation: Generation,
    holder: OrchestratorId,
    initiator: UserId,
    run: RunId,
    acquiredAt: Time,
    expiresAt: Time,
    horizon: Time,
    releasedAt: Option<Time>)

  type Leases = map<ContextId, Lease>

  datatype LeaseError =
    | InvalidRequest
    | HeldByOther(holder: Lease)
    | NotHeld
    | TransferDenied

  /** Who may act on a live lease: its initiator, or a caller the route overrides for. */
  datatype Caller = Caller(user: UserId, override: bool)

  function Earlier(a: Time, b: Time): (r: Time)
    ensures r <= a && r <= b && (r == a || r == b)
  {
    if a <= b then a else b
  }

  predicate IsLive(row: Lease, now: Time) {
    row.releasedAt.None? && now <= row.expiresAt
  }

  predicate MayAct(row: Lease, caller: Caller) {
    caller.override || row.initiator == caller.user
  }

  // ---- acquire ----

  function Grant(drawn: Generation, holder: OrchestratorId, initiator: UserId, run: RunId,
                 ttl: int, horizon: Time, now: Time): Lease
  {
    Lease(drawn, holder, initiator, run, now, Earlier(now + ttl, horizon), horizon, None)
  }

  /** The re-grant UPDATE: released, or expired before `now`. */
  predicate CanRegrant(rows: Leases, c: ContextId, now: Time) {
    c in rows && (rows[c].releasedAt.Some? || rows[c].expiresAt < now)
  }

  // ---- renew ----

  /** What a renewal decides from the row it read: the new expiry, or a refusal. */
  function PlanRenew(read: Option<Lease>, g: Generation, run: RunId, caller: Caller,
                     ttl: int, now: Time): Result<Time, LeaseError>
  {
    if read.None? || read.value.generation != g || read.value.run != run then Err(NotHeld)
    else if !IsLive(read.value, now) then Err(NotHeld)
    else if !MayAct(read.value, caller) then Err(TransferDenied)
    else Ok(Earlier(now + ttl, read.value.horizon))
  }

  predicate CanRenew(rows: Leases, c: ContextId, g: Generation, run: RunId, caller: Caller, now: Time) {
    c in rows && rows[c].generation == g && rows[c].run == run && IsLive(rows[c], now)
    && MayAct(rows[c], caller)
  }

  function Renewed(rows: Leases, c: ContextId, expiresAt: Time): Leases
    requires c in rows
  {
    rows[c := rows[c].(expiresAt := expiresAt)]
  }

  // ---- transfer ----

  datatype Recipient = Recipient(holder: OrchestratorId, run: RunId, initiator: UserId)

  function PlanTransfer(read: Option<Lease>, g: Generation, caller: Caller,
                        ttl: int, now: Time): Result<Time, LeaseError>
  {
    if read.None? || read.value.generation != g || !IsLive(read.value, now) then Err(NotHeld)
    else if !MayAct(read.value, caller) then Err(TransferDenied)
    else Ok(Earlier(now + ttl, read.value.horizon))
  }

  predicate CanTransfer(rows: Leases, c: ContextId, g: Generation, caller: Caller, now: Time) {
    c in rows && rows[c].generation == g && IsLive(rows[c], now) && MayAct(rows[c], caller)
  }

  /** The horizon and `releasedAt` columns are not written by a transfer. */
  function Transferred(rows: Leases, c: ContextId, drawn: Generation, to: Recipient,
                       expiresAt: Time, now: Time): Leases
    requires c in rows
  {
    rows[c := rows[c].(generation := drawn, holder := to.holder, run := to.run,
                       initiator := to.initiator, acquiredAt := now, expiresAt := expiresAt)]
  }

  // ---- release ----

  predicate CanRelease(rows: Leases, c: ContextId, g: Generation, run: RunId, caller: Caller) {
    c in rows && rows[c].generation == g && rows[c].run == run && rows[c].releasedAt.None?
    && MayAct(rows[c], caller)
  }

  function Released(rows: Leases, c: ContextId, now: Time): Leases
    requires c in rows
  {
    rows[c := rows[c].(releasedAt := Some(now))]
  }

  // ---- reads ----

  function Read(rows: Leases, c: ContextId): Option<Lease> {
    if c in rows then Some(rows[c]) else None
  }
}
