/**
 The timed readiness poll (deploy/service_readiness.py, `wait_ready`).

 The environment is adversarial: it is an arbitrary function from the poll number
 to everything that poll reads.  Only the clock is constrained, to be monotone and
 to advance by at least the requested sleep.
 */
module Readiness {
  import opened Wrappers
  import opened ServiceProtocol

  const BUDGET_NS := 30_000_000_000
  const STABILITY_NS := 5_000_000_000
  const POLL_NS := 250_000_000
  const MAX_NONCES := 2

  datatype Code = ContextCode | TimeoutCode | IdentityCode | DocumentCode | LaunchdCode | CleanupCode | Abandoned

  datatype PidReading = Pid(value: int) | PidFailed(code: Code)
  datatype Reading = NoDocument | Read(doc: Document) | Refused(category: Category) | Interrupted

  /** Everything one iteration of the loop observes, in the order it observes it. */
  datatype Poll = Poll(entered: int, pidBefore: PidReading, aliveBefore: bool, reading: Reading, wallFirst: int,
                       pidAfter: PidReading, aliveAfter: bool, wallSecond: int, judged: int, left: int)

  datatype Context = Context(startMs: int, deadlineNs: int, excluded: seq<string>)
  datatype Request = Request(context: Context, pid: int, executable: Digest, entryNs: int)

  function Min(a: int, b: int): int {
    if a <= b then a else b
  }

  function Deadline(q: Request): int {
    Min(q.context.deadlineNs, q.entryNs + BUDGET_NS)
  }

  /** What `encode_context` accepts, besides the nonce alphabet. */
  predicate ValidContext(c: Context) {
    && Millis(c.startMs) && Millis(c.deadlineNs) && |c.excluded| <= MAX_NONCES
    && forall i, j :: 0 <= i < j < |c.excluded| ==> c.excluded[i] != c.excluded[j]
  }

  /** A monotone clock on which `sleep` lasts at least as long as asked. */
  ghost predicate Clockwork(env: nat -> Poll, deadline: int, startNs: int) {
    && startNs <= env(0).entered
    && (forall k: nat :: env(k).entered <= env(k).judged <= env(k).left)
    && (forall k: nat :: env(k).left < deadline ==>
          env(k).left + Min(POLL_NS, deadline - env(k).left) <= env(k + 1).entered)
  }

  // ---------------------------------------------------------------- declarative reading

  /** The expected process was launchd's, and alive, on both sides of the sample. */
  predicate Bracketed(q: Request, p: Poll) {
    p.pidBefore == Pid(q.pid) && p.aliveBefore && p.pidAfter == Pid(q.pid) && p.aliveAfter
  }

  /** A sample that counts toward stability, described without the validator. */
  ghost predicate GoodSample(q: Request, p: Poll) {
    && Bracketed(q, p) && p.reading.Read?
    && var d := p.reading.doc;
       && InSchema(d) && Serving(d) && d.pid == q.pid && d.executable == q.executable && d.nonce !in q.context.excluded
       && Millis(q.context.startMs) && Millis(p.wallFirst) && Millis(p.wallSecond)
       && q.context.startMs <= d.publishedMs
       && d.publishedMs - FUTURE_SKEW_MS <= p.wallFirst <= d.publishedMs + MAX_AGE_MS
       && d.publishedMs - FUTURE_SKEW_MS <= p.wallSecond <= d.publishedMs + MAX_AGE_MS
  }

  /** A sample that is tolerated while nothing good has been seen yet. */
  ghost predicate Tolerated(q: Request, p: Poll) {
    && Bracketed(q, p) && !GoodSample(q, p)
    && match p.reading
       case NoDocument => true
       case Refused(c) => c in {NotReady, Stale}
       case Interrupted => false
       case Read(d) =>
         && InSchema(d) && 1 <= q.pid <= MAX_PID && d.pid == q.pid && d.executable == q.executable
         && (Serving(d) && Fresh(d.publishedMs, q.context.startMs, p.wallFirst) ==> d.nonce !in q.context.excluded)
  }

  ghost predicate InTime(q: Request, p: Poll) {
    p.entered <= Deadline(q) && p.left < Deadline(q)
  }

  ghost predicate SameRun(p: Poll, o: Poll) {
    p.reading.Read? && o.reading.Read? && Identity(p.reading.doc) == Identity(o.reading.doc)
  }

  /**
   The polls `first..last` are an unbroken run of good samples of one process that
   spans the stability period, ends by the deadline, and follows tolerated polls only.
   */
  ghost predicate StableWindow(q: Request, startNs: int, env: nat -> Poll, first: nat, last: nat) {
    && first <= last && startNs < Deadline(q)
    && (forall k: nat :: k < first ==> Tolerated(q, env(k)) && InTime(q, env(k)))
    && (forall k: nat :: first <= k <= last ==> GoodSample(q, env(k)) && SameRun(env(first), env(k)))
    && (forall k: nat :: first <= k < last ==> InTime(q, env(k)) && env(k).judged - env(first).judged < STABILITY_NS)
    && env(last).entered <= Deadline(q) && env(last).judged <= Deadline(q)
    && env(last).judged - env(first).judged >= STABILITY_NS
  }

  ghost predicate StableUntil(q: Request, startNs: int, env: nat -> Poll, last: nat) {
    exists first: nat :: StableWindow(q, startNs, env, first, last)
  }

  ghost predicate BecomesStable(q: Request, startNs: int, env: nat -> Poll) {
    exists last: nat :: StableUntil(q, startNs, env, last)
  }

  // ---------------------------------------------------------------- the loop

  datatype Judgement = Raise(code: Code) | Soft | Good(doc: Document)

  predicate Forgivable(c: Category) {
    c in {NotReady, Stale}
  }

  /** The straight-line part of one iteration, from the first pid query to the second freshness check. */
  method Judge(q: Request, pinned: Option<RunIdentity>, p: Poll) returns (j: Judgement)
    ensures j.Good? <==> GoodSample(q, p) && (pinned.Some? ==> pinned.value == Identity(p.reading.doc))
    ensures j.Good? ==> p.reading == Read(j.doc)
    ensures j.Soft? <==> Tolerated(q, p) && (pinned.Some? && p.reading.Read? && Serving(p.reading.doc)
                         && Fresh(p.reading.doc.publishedMs, q.context.startMs, p.wallFirst)
                         ==> pinned.value == Identity(p.reading.doc))
  {
    if p.pidBefore.PidFailed? { return Raise(p.pidBefore.code); }
    if p.pidBefore != Pid(q.pid) { return Raise(IdentityCode); }
    if !p.aliveBefore { return Raise(DocumentCode); }
    var failed: Option<Category> := None;
    match p.reading {
      case Interrupted => return Raise(Abandoned);
      case NoDocument => failed := Some(NotReady);
      case Refused(c) => failed := Some(c);
      case Read(d) =>
        var v := ValidateReady(d, q.context.startMs, p.wallFirst, q.pid, q.executable, p.aliveBefore);
        if v.Failure? {
          failed := Some(v.error);
        } else if v.value.nonce in q.context.excluded || (pinned.Some? && v.value != pinned.value) {
          return Raise(IdentityCode);
        }
    }
    if p.pidAfter.PidFailed? { return Raise(p.pidAfter.code); }
    if p.pidAfter != Pid(q.pid) { return Raise(IdentityCode); }
    if !p.aliveAfter { return Raise(DocumentCode); }
    if failed.None? && !Fresh(p.reading.doc.publishedMs, q.context.startMs, p.wallSecond) { failed := Some(Stale); }
    if failed.None? { return Good(p.reading.doc); }
    return if Forgivable(failed.value) then Soft else Raise(DocumentCode);
  }

  /**
   `wait_ready`.  It returns a document exactly when the environment contains a
   stable window, whatever else the environment does.  Every poll but the last two
   costs at least POLL_NS, so the loop is bounded by the time left on entry.
   */
  method WaitReady(q: Request, startNs: int, env: nat -> Poll) returns (r: Result<Document, Code>, polls: nat)
    requires Clockwork(env, Deadline(q), startNs)
    ensures polls > 0 ==> startNs + (polls - 2) * POLL_NS < Deadline(q)
    ensures r.Success? <==> ValidContext(q.context) && BecomesStable(q, startNs, env)
    ensures r.Success? ==> polls > 0 && env(polls - 1).reading == Read(r.value)
                           && StableUntil(q, startNs, env, polls - 1)
  {
    hide GoodSample, Tolerated, StableWindow, Serving, Fresh;
    polls := 0;
    if !ValidContext(q.context) { return Failure(ContextCode), 0; }
    var deadline := Deadline(q);
    if startNs >= deadline { TooLate(q, startNs, env); return Failure(TimeoutCode), 0; }
    var first: Option<int> := None;
    var pinned: Option<RunIdentity> := None;
    ghost var from: nat := 0;
    while true
      invariant Underway(q, env, from, polls)
      invariant forall k: nat :: k < polls ==> InTime(q, env(k))
      invariant first.Some? == pinned.Some? == (from < polls)
      invariant first.Some? ==> first.value == env(from).judged && pinned.value == Identity(env(from).reading.doc)
      invariant env(polls).entered >= Min(startNs + polls * POLL_NS, deadline)
      invariant startNs + (polls - 1) * POLL_NS < deadline
      decreases deadline - startNs - polls * POLL_NS
    {
      var p := env(polls);
      ghost var at := polls;
      polls := polls + 1;
      if p.entered > deadline { Rejected(q, startNs, env, from, at); return Failure(TimeoutCode), polls; }
      var j := Judge(q, pinned, p);
      match j {
        case Raise(code) => Rejected(q, startNs, env, from, at); return Failure(code), polls;
        case Soft =>
          if first.Some? { Rejected(q, startNs, env, from, at); return Failure(DocumentCode), polls; }
          Softly(q, env, at);
          from := polls;
        case Good(doc) =>
          if p.judged > deadline { Rejected(q, startNs, env, from, at); return Failure(TimeoutCode), polls; }
          if first.None? { first, pinned := Some(p.judged), Some(Identity(doc)); }
          if p.judged - first.value >= STABILITY_NS {
            Completed(q, startNs, env, from, at);
            return Success(doc), polls;
          }
          Steadily(q, env, from, at);
      }
      if p.left >= deadline { RejectedLate(q, startNs, env, from, at); return Failure(TimeoutCode), polls; }
    }
  }

  /** Polls up to `at` begin with `from` tolerated ones, then good ones of one run, none of which ends a window. */
  ghost predicate Underway(q: Request, env: nat -> Poll, from: nat, at: nat) {
    && from <= at
    && (forall k: nat :: k < from ==> Tolerated(q, env(k)))
    && (forall k: nat :: from <= k < at ==>
          GoodSample(q, env(k)) && SameRun(env(from), env(k)) && env(k).judged - env(from).judged < STABILITY_NS)
  }

  lemma Softly(q: Request, env: nat -> Poll, at: nat)
    requires Underway(q, env, at, at) && Tolerated(q, env(at))
    ensures Underway(q, env, at + 1, at + 1)
  {
    hide Tolerated, GoodSample;
  }

  lemma Steadily(q: Request, env: nat -> Poll, from: nat, at: nat)
    requires Underway(q, env, from, at) && GoodSample(q, env(at)) && SameRun(env(from), env(at))
    requires env(at).judged - env(from).judged < STABILITY_NS
    ensures Underway(q, env, from, at + 1)
  {
    hide Tolerated, GoodSample;
  }

  /** Started no earlier than the entry time, the loop polls at most 121 times. */
  lemma AtMost121Polls(q: Request, startNs: int, polls: nat)
    requires polls > 0 ==> startNs + (polls - 2) * POLL_NS < Deadline(q)
    requires q.entryNs <= startNs
    ensures polls <= 121
  {
  }

  lemma Completed(q: Request, startNs: int, env: nat -> Poll, from: nat, at: nat)
    requires Underway(q, env, from, at) && startNs < Deadline(q) && GoodSample(q, env(at))
             && SameRun(env(from), env(at))
    requires forall k: nat :: k < at ==> InTime(q, env(k))
    requires env(at).entered <= Deadline(q) && env(at).judged <= Deadline(q)
    requires env(at).judged - env(from).judged >= STABILITY_NS
    ensures StableUntil(q, startNs, env, at)
  {
    assert StableWindow(q, startNs, env, from, at);
  }

  /** Any window is the one the loop is building. */
  lemma WindowStartsHere(q: Request, startNs: int, env: nat -> Poll, from: nat, at: nat, first: nat, last: nat)
    requires Underway(q, env, from, at)
    ensures StableWindow(q, startNs, env, first, last) ==> last >= at && (from < at ==> first == from) && first >= from
  {
    assert Tolerated(q, env(first)) ==> !GoodSample(q, env(first));
    assert Tolerated(q, env(from)) ==> !GoodSample(q, env(from));
  }

  lemma NoWindow(q: Request, startNs: int, env: nat -> Poll)
    requires forall first: nat, last: nat :: !StableWindow(q, startNs, env, first, last)
    ensures !BecomesStable(q, startNs, env)
  {
  }

  lemma TooLate(q: Request, startNs: int, env: nat -> Poll)
    requires startNs >= Deadline(q)
    ensures !BecomesStable(q, startNs, env)
  {
  }

  /** A poll that fits neither way of continuing. */
  ghost predicate Breaks(q: Request, env: nat -> Poll, from: nat, at: nat) {
    || env(at).entered > Deadline(q)
    || (!(Tolerated(q, env(at)) && from == at)
        && !(GoodSample(q, env(at)) && (from == at || SameRun(env(from), env(at))) && env(at).judged <= Deadline(q)))
  }

  /** Such a poll rules every window out. */
  lemma Rejected(q: Request, startNs: int, env: nat -> Poll, from: nat, at: nat)
    requires Underway(q, env, from, at) && Breaks(q, env, from, at)
    ensures !BecomesStable(q, startNs, env)
  {
    forall first: nat, last: nat ensures !StableWindow(q, startNs, env, first, last) {
      WindowStartsHere(q, startNs, env, from, at, first, last);
    }
    NoWindow(q, startNs, env);
  }

  /** Running out of time after a poll that did not finish a window rules every window out. */
  lemma RejectedLate(q: Request, startNs: int, env: nat -> Poll, from: nat, at: nat)
    requires Underway(q, env, from, at + 1) && env(at).left >= Deadline(q)
    ensures !BecomesStable(q, startNs, env)
  {
    forall first: nat, last: nat ensures !StableWindow(q, startNs, env, first, last) {
      WindowStartsHere(q, startNs, env, from, at + 1, first, last);
    }
    NoWindow(q, startNs, env);
  }
}
