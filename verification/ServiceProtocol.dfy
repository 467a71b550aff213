/** The readiness document and its per-sample validation (deploy/service_protocol.py). */
module ServiceProtocol {
  import opened Wrappers

  /** A SHA-256 digest in lower-case hexadecimal. */
  datatype Digest = Hex(digits: string)

  const MAX_TIME := 0x7FFF_FFFF_FFFF_FFFF
  const MAX_PID := 0x7FFF_FFFF
  const FUTURE_SKEW_MS := 2_000
  const MAX_AGE_MS := 30_000

  datatype Category = InvalidDocument | UnsafeFile | Unavailable | IdentityMismatch | NotReady | Stale
                      | ProcessUnavailable

  datatype Phase = PhaseStarting | PhaseReady | PhaseDraining
  datatype Discord = DiscordConnecting | DiscordReady | DiscordStopped
  datatype Scheduler = SchedulerStarting | SchedulerRunning | SchedulerStopped

  datatype Document = Document(pid: int, nonce: string, executable: Digest, phase: Phase,
                               publishedMs: int, discord: Discord, scheduler: Scheduler)

  datatype RunIdentity = RunIdentity(pid: int, nonce: string, executable: Digest)

  function Identity(d: Document): RunIdentity {
    RunIdentity(d.pid, d.nonce, d.executable)
  }

  predicate InSchema(d: Document) {
    1 <= d.pid <= MAX_PID && 0 <= d.publishedMs <= MAX_TIME
  }

  predicate Millis(v: int) {
    0 <= v <= MAX_TIME
  }

  /** `fresh`: published inside the transaction, at most 30 s old and 2 s ahead of `now`. */
  predicate Fresh(publishedMs: int, startMs: int, nowMs: int): (ok: bool)
    ensures ok <==> && Millis(publishedMs) && Millis(startMs) && Millis(nowMs)
                    && startMs <= publishedMs <= nowMs + FUTURE_SKEW_MS && nowMs <= publishedMs + MAX_AGE_MS
  {
    if !Millis(publishedMs) || !Millis(startMs) || !Millis(nowMs) then false
    else if publishedMs < startMs then false
    else if publishedMs > nowMs then publishedMs - nowMs <= FUTURE_SKEW_MS
    else nowMs - publishedMs <= MAX_AGE_MS
  }

  predicate Serving(d: Document) {
    d.phase == PhaseReady && d.discord == DiscordReady && d.scheduler == SchedulerRunning
  }

  /** `validate_ready`, with the checks in the source's order. */
  function ValidateReady(d: Document, startMs: int, nowMs: int, launchdPid: int, expected: Digest, present: bool)
    : (r: Result<RunIdentity, Category>)
    ensures r.Success? <==> && InSchema(d) && d.pid == launchdPid && d.executable == expected
                            && Serving(d) && Fresh(d.publishedMs, startMs, nowMs) && present
    ensures r.Success? ==> r.value == Identity(d)
    ensures r.Failure? && r.error in {NotReady, Stale} ==> d.pid == launchdPid && d.executable == expected
  {
    if !InSchema(d) then Failure(InvalidDocument)
    else if !(1 <= launchdPid <= MAX_PID) then Failure(IdentityMismatch)
    else if d.pid != launchdPid || d.executable != expected then Failure(IdentityMismatch)
    else if !Serving(d) then Failure(NotReady)
    else if !Fresh(d.publishedMs, startMs, nowMs) then Failure(Stale)
    else if !present then Failure(ProcessUnavailable)
    else Success(Identity(d))
  }
}
