/**
 The environment cutover both configurators run under the lock: publish with a backup,
 restart, and roll back (deploy/configure-mlx-primary.py, `publish`, `restore`,
 `restart_and_require_stable`, `run_locked`; deploy/configure-fm-primary.py, `run_locked`).
 */
module EnvironmentCutover {
  import opened Wrappers
  import opened EnvironmentAgreement
  import opened EnvironmentFile
  import opened EnvironmentRender

  /** The environment, its backup, and the temporary files of publish and restore. */
  datatype Disk = Disk(env: string, backup: Option<string>, staged: Option<string>, restaged: Option<string>)

  /** Which steps of `restore` fail. */
  datatype RestoreFaults = RestoreFaults(unsafe: bool, read: bool, create: bool, write: bool, replace: bool, sync: bool,
                                         cleanup: bool)

  /** Which steps of `publish` fail; a failed write leaves `partial` characters. */
  datatype PublishFaults = PublishFaults(
    backupDirectory: bool, backupCreate: bool, backupWrite: bool, create: bool, write: bool, replace: bool,
    syncEnvironment: bool, syncBackup: bool, cleanup: bool, partial: nat, restore: RestoreFaults)

  function Partial(content: string, failed: bool, length: nat): string {
    if failed && length < |content| then content[..length] else content
  }

  predicate RestoreWorks(f: RestoreFaults) {
    !f.unsafe && !f.read && !f.create && !f.write && !f.replace && !f.sync
  }

  /** `restore`: `ok` is false where it raises. */
  method Restore(before: Disk, f: RestoreFaults) returns (after: Disk, ok: bool)
    ensures ok <==> before.backup.Some? && RestoreWorks(f)
    ensures after.backup == before.backup && after.staged == before.staged
    ensures after.env == before.env || (before.backup.Some? && after.env == before.backup.value)
    ensures ok ==> after.env == before.backup.value
    ensures before.restaged.None? && after.restaged.Some? ==> f.cleanup
  {
    after, ok := before, false;
    if before.backup.None? || f.unsafe { return; }
    if f.read || f.create { return; }
    after := after.(restaged := Some(Partial(before.backup.value, f.write, 0)));
    if f.write || f.replace {
      if !f.cleanup { after := after.(restaged := None); }
      return;
    }
    after := after.(env := before.backup.value, restaged := None);
    ok := !f.sync;
  }

  /** How `publish` ends: by returning, or by raising one way or another. */
  datatype PublishEnd = Published | Changed | Failed | Unrestored | Escaped

  /** The new file reaches the environment's path. */
  predicate Replaces(before: Disk, original: string, f: PublishFaults) {
    before.env == original && !f.backupDirectory && !f.backupCreate && !f.backupWrite && !f.create && !f.write
    && !f.replace
  }

  /** Syncing failed after the replacement, and so did removing the renamed temporary. */
  predicate Escapes(before: Disk, original: string, f: PublishFaults) {
    Replaces(before, original, f) && (f.syncEnvironment || f.syncBackup) && f.cleanup
  }

  method Publish(before: Disk, original: string, content: string, f: PublishFaults)
    returns (after: Disk, end: PublishEnd)
    ensures end.Changed? <==> before.env != original
    ensures end.Published? <==> Replaces(before, original, f) && !f.syncEnvironment && !f.syncBackup
    ensures end.Escaped? <==> Escapes(before, original, f)
    ensures end.Unrestored? <==>
              Replaces(before, original, f) && (f.syncEnvironment || f.syncBackup) && !f.cleanup
              && !RestoreWorks(f.restore)
    ensures Replaces(before, original, f) ==> after.backup == Some(original)
    ensures end.Published? || end.Escaped? ==> after.env == content
    ensures end.Changed? ==> after == before
    ensures end.Failed? ==> after.env == original
    ensures end.Unrestored? ==> after.env == original || after.env == content
    ensures before.staged.None? && after.staged.Some? ==> f.cleanup
    ensures before.restaged.None? && after.restaged.Some? ==> f.restore.cleanup
  {
    after := before;
    if before.env != original { return after, Changed; }
    if f.backupDirectory || f.backupCreate { return after, Failed; }
    after := after.(backup := Some(Partial(original, f.backupWrite, f.partial)));
    if f.backupWrite || f.create { return after, Failed; }
    after := after.(staged := Some(Partial(content, f.write, f.partial)));
    if f.write || f.replace {
      if !f.cleanup { after := after.(staged := None); }
      return after, Failed;
    }
    after := after.(env := content, staged := None);
    if !f.syncEnvironment && !f.syncBackup { return after, Published; }
    // Removing the temporary, already renamed away, may itself raise: nothing is restored then.
    if f.cleanup { return after, Escaped; }
    var restored: bool;
    after, restored := Restore(after, f.restore);
    end := if restored then Failed else Unrestored;
  }

  // ---------------------------------------------------------------- the restart

  const START_TIMEOUT_NS := 15_000_000_000
  const STABLE_INTERVAL_NS := 1_000_000_000
  const STABLE_OBSERVATIONS := 3

  /**
   launchd during one restart: whether the kick worked, the time when the deadline is set,
   what the k-th observation shows, and the time at the k-th look at the clock, in nanoseconds.
   */
  datatype Service = Service(kicked: bool, started: int, observe: nat -> Option<nat>, clock: nat -> int)

  function Deadline(s: Service): int {
    s.started + START_TIMEOUT_NS
  }

  /** The clock never falls, and every sleep lasts at least its interval. */
  ghost predicate Sleeps(s: Service) {
    s.started <= s.clock(0) && forall k: nat :: s.clock(k + 1) >= s.clock(k) + STABLE_INTERVAL_NS
  }

  predicate Nothing(s: Service, previous: nat, k: nat) {
    s.observe(k) == None || s.observe(k) == Some(previous)
  }

  /** The k-th observation is the first of another process than the previous one. */
  ghost predicate FirstNew(s: Service, previous: nat, k: nat, pid: nat) {
    && s.observe(k) == Some(pid) && pid != previous
    && forall j: nat :: j < k ==> Nothing(s, previous, j)
  }

  /** Every observation from the k-th up to the l-th shows the process. */
  ghost predicate Held(s: Service, k: nat, l: nat, pid: nat) {
    forall j: nat :: k <= j < l ==> s.observe(j) == Some(pid)
  }

  ghost predicate NewAndStable(s: Service, previous: nat, pid: nat) {
    s.kicked && exists k: nat :: FirstNew(s, previous, k, pid) && s.clock(k) < Deadline(s)
                                 && Held(s, k, k + STABLE_OBSERVATIONS, pid)
  }

  lemma OneFirstNew(s: Service, previous: nat, k: nat, l: nat, p: nat, q: nat)
    requires FirstNew(s, previous, k, p) && FirstNew(s, previous, l, q)
    ensures k == l && p == q
  {
    assert k < l ==> Nothing(s, previous, k);
    assert l < k ==> Nothing(s, previous, l);
  }

  lemma Tick(s: Service, k: nat)
    requires Sleeps(s)
    ensures s.clock(k + 1) >= s.clock(k) + STABLE_INTERVAL_NS
  {
  }

  lemma {:induction false} ClockAdvances(s: Service, k: nat)
    requires Sleeps(s)
    ensures s.clock(k) >= s.started + k * STABLE_INTERVAL_NS
  {
    if k > 0 {
      ClockAdvances(s, k - 1);
      Tick(s, k - 1);
    }
  }

  /** `restart_and_require_stable`: the new process, or nothing where it raises. */
  method Restart(s: Service, previous: nat) returns (r: Option<nat>)
    requires Sleeps(s)
    ensures forall pid: nat :: r == Some(pid) <==> NewAndStable(s, previous, pid)
  {
    if !s.kicked { return None; }
    var k: nat := 0;
    while s.clock(k) < Deadline(s) && Nothing(s, previous, k)
      invariant forall j: nat :: j < k ==> Nothing(s, previous, j) && s.clock(j) < Deadline(s)
      invariant k * STABLE_INTERVAL_NS <= START_TIMEOUT_NS
      decreases START_TIMEOUT_NS - k * STABLE_INTERVAL_NS
    {
      ClockAdvances(s, k);
      k := k + 1;
    }
    if s.clock(k) >= Deadline(s) {
      NoneInTime(s, previous, k);
      return None;
    }
    var candidate := s.observe(k).value;
    assert FirstNew(s, previous, k, candidate);
    var observed: nat := 1;
    while observed < STABLE_OBSERVATIONS
      invariant 1 <= observed <= STABLE_OBSERVATIONS
      invariant Held(s, k, k + observed, candidate)
    {
      if s.observe(k + observed) != Some(candidate) {
        Unstable(s, previous, k, candidate, k + observed);
        return None;
      }
      observed := observed + 1;
    }
    OnlyCandidate(s, previous, k, candidate);
    return Some(candidate);
  }

  lemma {:induction false} Later(s: Service, k: nat, l: nat)
    requires Sleeps(s) && k <= l
    ensures s.clock(k) <= s.clock(l)
  {
    if k < l {
      Later(s, k, l - 1);
      Tick(s, l - 1);
    }
  }

  lemma NoneInTime(s: Service, previous: nat, k: nat)
    requires Sleeps(s) && s.clock(k) >= Deadline(s) && forall j: nat :: j < k ==> Nothing(s, previous, j)
    ensures forall pid: nat :: !NewAndStable(s, previous, pid)
  {
    forall pid: nat, l: nat | FirstNew(s, previous, l, pid) ensures s.clock(l) >= Deadline(s) {
      assert l < k ==> Nothing(s, previous, l);
      Later(s, k, l);
    }
  }

  lemma Unstable(s: Service, previous: nat, k: nat, candidate: nat, j: nat)
    requires FirstNew(s, previous, k, candidate) && k <= j < k + STABLE_OBSERVATIONS && s.observe(j) != Some(candidate)
    ensures forall pid: nat :: !NewAndStable(s, previous, pid)
  {
    forall pid: nat, l: nat | FirstNew(s, previous, l, pid) ensures !Held(s, l, l + STABLE_OBSERVATIONS, pid) {
      OneFirstNew(s, previous, k, l, candidate, pid);
    }
  }

  lemma OnlyCandidate(s: Service, previous: nat, k: nat, candidate: nat)
    requires FirstNew(s, previous, k, candidate)
    ensures forall pid: nat :: NewAndStable(s, previous, pid) ==> pid == candidate
  {
    forall pid: nat, l: nat | FirstNew(s, previous, l, pid) ensures pid == candidate {
      OneFirstNew(s, previous, k, l, candidate, pid);
    }
  }

  // ---------------------------------------------------------------- the cutover

  /** How the whole cutover ends. */
  datatype End =
    | DryRun
    | Refused                                // nothing was written
    | NotPublished(end: PublishEnd)
    | NotRestored
    | RestoredNotRestarted
    | RestoredAndRestarted(pid: nat)
    | Updated(pid: nat)

  /** Everything the cutover meets: the running process, the failing steps, and both restarts. */
  datatype World = World(running: Option<nat>, publish: PublishFaults, first: Service, restore: RestoreFaults,
                         runningAfter: Option<nat>, second: Service)

  /** The environment changed, and neither success nor a failed restoration is reported. */
  predicate ChangedSilently(before: Disk, after: Disk, end: End) {
    && after.env != before.env && !end.Updated? && !end.NotRestored?
    && !(end.NotPublished? && end.end.Unrestored?)
  }

  /** The new environment is in place and synced. */
  predicate Publishes(before: Disk, original: string, apply: bool, w: World) {
    apply && w.running.Some? && Replaces(before, original, w.publish) && !w.publish.syncEnvironment
    && !w.publish.syncBackup
  }

  /** The restart with the new environment yields this process. */
  ghost predicate Succeeds(before: Disk, original: string, apply: bool, w: World, pid: nat) {
    Publishes(before, original, apply, w) && NewAndStable(w.first, w.running.value, pid)
  }

  /** It yields none, and the old environment has to be put back. */
  ghost predicate TurnsBack(before: Disk, original: string, apply: bool, w: World) {
    Publishes(before, original, apply, w) && forall pid: nat :: !NewAndStable(w.first, w.running.value, pid)
  }

  /** The process the second restart has to replace. */
  function Replaced(w: World): nat
    requires w.running.Some?
  {
    if w.runningAfter.Some? then w.runningAfter.value else w.running.value
  }

  /** `run_locked` after validation, for the environment as it was read. */
  method Cutover(before: Disk, original: string, content: string, apply: bool, w: World) returns (after: Disk, end: End)
    requires Sleeps(w.first) && Sleeps(w.second)
    ensures after.env == before.env || (before.env == original && after.env == content)
    ensures end.Updated? ==> after.env == content && after.backup == Some(before.env) && before.env == original
                             && w.running.Some? && NewAndStable(w.first, w.running.value, end.pid)
    ensures end.RestoredAndRestarted? ==> after.env == before.env
    ensures end.DryRun? || end.Refused? ==> after == before
    ensures !end.Updated? && after.env != before.env ==>
              after.backup == Some(before.env)
              && (end.NotRestored? || (end.NotPublished? && (end.end.Unrestored? || end.end.Escaped?)))
    ensures end.NotPublished? && end.end.Escaped? ==> after.env == content && after.backup == Some(before.env)
    ensures end.NotPublished? && end.end.Escaped? <==>
              apply && w.running.Some? && Escapes(before, original, w.publish)
    ensures ChangedSilently(before, after, end) <==>
              apply && w.running.Some? && Escapes(before, original, w.publish) && content != original
    ensures end.NotRestored? ==> after.backup == Some(before.env) && !RestoreWorks(w.restore)
    ensures (end.DryRun? <==> !apply) && (end.Refused? <==> apply && w.running.None?)
    ensures end.NotPublished? <==> apply && w.running.Some? && !Publishes(before, original, apply, w)
    ensures forall pid: nat :: end == Updated(pid) <==> Succeeds(before, original, apply, w, pid)
    ensures end.NotRestored? <==> TurnsBack(before, original, apply, w) && !RestoreWorks(w.restore)
    ensures forall pid: nat :: end == RestoredAndRestarted(pid) <==>
                                 TurnsBack(before, original, apply, w) && RestoreWorks(w.restore)
                                 && NewAndStable(w.second, Replaced(w), pid)
  {
    hide NewAndStable, RestoreWorks;
    if !apply { return before, DryRun; }
    if w.running.None? { return before, Refused; }
    var previous := w.running.value;
    var published;
    after, published := Publish(before, original, content, w.publish);
    if !published.Published? { return after, NotPublished(published); }
    var pid := Restart(w.first, previous);
    if pid.Some? { return after, Updated(pid.value); }
    var restored;
    after, restored := Restore(after, w.restore);
    if !restored { return after, NotRestored; }
    var again := Restart(w.second, if w.runningAfter.Some? then w.runningAfter.value else previous);
    end := if again.None? then RestoredNotRestarted else RestoredAndRestarted(again.value);
  }

  /** What the parser reads from the file: nothing if it refuses the file. */
  ghost predicate Reads(text: string, values: Values) {
    EnvironmentValues(text) == Success(values)
  }

  /** An environment of which the renderer leaves every line assigning what the parser read. */
  ghost predicate Regular(plan: Plan, text: string, values: Values) {
    && Reads(text, values) && Distinct(plan, Pieces(plan, text)) && EachLineAgrees(plan, text)
    && (plan.mlx || NothingJoins(plan, Chunks(text)))
  }

  /**
   `run_locked` with its rendering. However it ends, a regular environment is still one
   the service can read: with its own settings, or with them overridden by the managed ones.
   */
  method RunLocked(mlx: bool, modelDir: string, cli: string, manifest: string, before: Disk, original: string,
                   apply: bool, w: World)
    returns (after: Disk, end: End)
    requires Sleeps(w.first) && Sleeps(w.second)
    ensures var plan := CutoverPlan(mlx, modelDir, cli, manifest); var content := Rendered(plan, original);
            && (content.None? ==> after == before && end.Refused?)
            && (after.env != before.env ==> before.env == original && content == Some(after.env))
            && (end.Updated? ==> content == Some(after.env) && after.backup == Some(original) && w.running.Some?
                                 && NewAndStable(w.first, w.running.value, end.pid))
            && forall pid: nat :: end == Updated(pid) <==>
                                    content.Some? && Succeeds(before, original, apply, w, pid)
    ensures Quotable(modelDir) && Quotable(cli) && Quotable(manifest) && Utf8Length(after.env) <= MAX_ENV_BYTES ==>
              forall values :: Regular(CutoverPlan(mlx, modelDir, cli, manifest), before.env, values) ==>
              var overridden := values + Settings(CutoverPlan(mlx, modelDir, cli, manifest).managed);
              Reads(after.env, overridden) || (!end.Updated? && Reads(after.env, values))
  {
    hide Succeeds, Rendered, MlxPlan, FmPlan, EnvironmentValues, Comment, Quotable, Distinct, EachLineAgrees,
         NothingJoins,
         Chunks, Pieces;
    var plan := CutoverPlan(mlx, modelDir, cli, manifest);
    var content;
    if mlx {
      MlxHeaderIsAComment(modelDir, cli, manifest);
      content := RenderMlx(plan, original);
    } else {
      content := RenderFm(plan, original);
    }
    RenderedIs(plan, mlx, modelDir, cli, manifest, original);
    if content.None? { return before, Refused; }
    after, end := Cutover(before, original, content.value, apply, w);
    if Quotable(modelDir) && Quotable(cli) && Quotable(manifest) {
      forall values | Regular(plan, before.env, values) && before.env == original
        ensures Utf8Length(content.value) <= MAX_ENV_BYTES ==> Reads(content.value, values + Settings(plan.managed)) {
        CutoverReadsBackExactly(original, mlx, modelDir, cli, manifest);
      }
    }
  }

  lemma RenderedIs(plan: Plan, mlx: bool, modelDir: string, cli: string, manifest: string, original: string)
    requires plan == CutoverPlan(mlx, modelDir, cli, manifest)
    ensures Rendered(plan, original) == if mlx then MlxRendered(plan, original) else FmRendered(plan, original)
    ensures plan.mlx == mlx
  {
    hide MlxRendered, FmRendered;
  }
}
