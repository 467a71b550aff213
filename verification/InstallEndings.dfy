/**
 How a run of the installer ends, told from the files it finds and from what it meets: which
 steps must work for it to be ready, and which for a failed run to be rolled back.
 */
module InstallEndings {
  import opened Wrappers
  import opened Json
  import opened ServiceProtocol
  import opened InstallPhases

  // ---------------------------------------------------------------- lists of steps

  /** The step does not fail. */
  predicate Passes(files: Files, a: Action, effect: Effect) {
    a.Skip? || (effect.Done? && (a.Look? ==> a.holds) && (a.Create? ==> a.path !in files))
  }

  predicate Writes(a: Action, path: Path) {
    (a.Create? || a.Replace?) && a.path == path
  }

  /** What a writing step puts at its path. */
  function Written(a: Action): Option<Content>
    requires a.Create? || a.Replace?
  {
    if a.Create? then Some(a.content) else a.replacement
  }

  ghost predicate AllPass(files: Files, actions: seq<Action>, effects: seq<Effect>, from: nat) {
    forall k :: from <= k < |actions| ==> Passes(Applied(files, actions[..k]), actions[k], At(effects, k))
  }

  lemma OneApplied(files: Files, actions: seq<Action>, i: nat)
    requires i < |actions|
    ensures Applied(files, actions[..i + 1]) == Acted(Applied(files, actions[..i]), actions[i])
  {
    assert actions[..i + 1][..i] == actions[..i];
  }

  lemma OnePasses(files: Files, a: Action, effect: Effect)
    ensures Step(files, a, effect).ok <==> Passes(files, a, effect)
    ensures Passes(files, a, effect) ==> Step(files, a, effect).files == Acted(files, a)
  {
  }

  /** A phase completes exactly when each of its steps passes where the steps before it led. */
  lemma {:induction false} CompletesFrom(files: Files, actions: seq<Action>, effects: seq<Effect>, i: nat)
    requires i <= |actions|
    ensures var p := From(Applied(files, actions[..i]), actions, effects, i);
            (p.ok <==> AllPass(files, actions, effects, i)) && (p.ok ==> p.files == Applied(files, actions))
    decreases |actions| - i
  {
    hide From, Applied, Step, Passes, Acted, At;
    var before := Applied(files, actions[..i]);
    if i == |actions| {
      NoMoreSteps(before, actions, effects);
      assert actions[..i] == actions;
    } else {
      OneStep(before, actions, effects, i);
      OnePasses(before, actions[i], At(effects, i));
      OneApplied(files, actions, i);
      CompletesFrom(files, actions, effects, i + 1);
    }
  }

  lemma Completes(files: Files, actions: seq<Action>, effects: seq<Effect>)
    ensures var p := Performed(files, actions, effects);
            (p.ok <==> AllPass(files, actions, effects, 0)) && (p.ok ==> p.files == Applied(files, actions))
  {
    assert actions[..0] == [];
    CompletesFrom(files, actions, effects, 0);
    hide From;
  }

  lemma ActedElsewhere(files: Files, a: Action, path: Path)
    ensures !Writes(a, path) ==> Lookup(Acted(files, a), path) == Lookup(files, path)
    ensures Writes(a, path) ==> Lookup(Acted(files, a), path) == Written(a)
  {
  }

  /** Steps that do not write a file leave it alone. */
  lemma {:induction false} Untouched(files: Files, actions: seq<Action>, n: nat, path: Path)
    requires n <= |actions| && forall k :: 0 <= k < n ==> !Writes(actions[k], path)
    ensures Lookup(Applied(files, actions[..n]), path) == Lookup(files, path)
  {
    hide Writes, Lookup, Acted;
    if n == 0 {
      assert actions[..0] == [];
    } else {
      Untouched(files, actions, n - 1, path);
      OneApplied(files, actions, n - 1);
      ActedElsewhere(Applied(files, actions[..n - 1]), actions[n - 1], path);
    }
  }

  /** The last step that writes a file decides what it holds. */
  lemma {:induction false} LastWrite(files: Files, actions: seq<Action>, n: nat, i: nat, path: Path)
    requires i < n <= |actions| && Writes(actions[i], path) && forall k :: i < k < n ==> !Writes(actions[k], path)
    ensures Lookup(Applied(files, actions[..n]), path) == Written(actions[i])
  {
    hide Writes, Lookup, Acted, Written;
    OneApplied(files, actions, n - 1);
    ActedElsewhere(Applied(files, actions[..n - 1]), actions[n - 1], path);
    if i < n - 1 { LastWrite(files, actions, n - 1, i, path); }
  }

  /** The step's check holds and it works, wherever it is made. */
  predicate Works(a: Action, effect: Effect) {
    a.Skip? || (effect.Done? && (a.Look? ==> a.holds))
  }

  ghost predicate AllWork(actions: seq<Action>, effects: seq<Effect>) {
    forall k :: 0 <= k < |actions| ==> Works(actions[k], At(effects, k))
  }

  /** Every file a list creates is new when it does. */
  ghost predicate CreatesNew(files: Files, actions: seq<Action>) {
    forall k :: 0 <= k < |actions| && actions[k].Create? ==>
      actions[k].path !in files && forall j :: 0 <= j < k ==> !Writes(actions[j], actions[k].path)
  }

  /** If what it creates is new, a phase completes exactly when all its checks hold and its steps work. */
  lemma CompletesIfAllWork(files: Files, actions: seq<Action>, effects: seq<Effect>)
    requires CreatesNew(files, actions)
    ensures var p := Performed(files, actions, effects);
            (p.ok <==> AllWork(actions, effects)) && (p.ok ==> p.files == Applied(files, actions))
  {
    Completes(files, actions, effects);
    hide Applied, Performed, Writes;
    forall k | 0 <= k < |actions|
      ensures Passes(Applied(files, actions[..k]), actions[k], At(effects, k)) <==> Works(actions[k], At(effects, k)) {
      if actions[k].Create? { NewPath(files, actions, k, actions[k].path); }
    }
  }

  lemma NewPath(files: Files, actions: seq<Action>, n: nat, path: Path)
    requires n <= |actions| && path !in files && forall k :: 0 <= k < n ==> !Writes(actions[k], path)
    ensures path !in Applied(files, actions[..n])
  {
    Untouched(files, actions, n, path);
  }

  lemma NoneWrites(files: Files, actions: seq<Action>, path: Path)
    requires forall k :: 0 <= k < |actions| ==> !Writes(actions[k], path)
    ensures Lookup(Applied(files, actions), path) == Lookup(files, path)
  {
    assert actions[..|actions|] == actions;
    Untouched(files, actions, |actions|, path);
  }

  lemma LastWrites(files: Files, actions: seq<Action>, i: nat, path: Path)
    requires i < |actions| && Writes(actions[i], path) && forall k :: i < k < |actions| ==> !Writes(actions[k], path)
    ensures Lookup(Applied(files, actions), path) == Written(actions[i])
  {
    assert actions[..|actions|] == actions;
    LastWrite(files, actions, |actions|, i, path);
  }

  /** Wherever a phase stops, a file it never writes is as it was. */
  lemma UntouchedAnyway(files: Files, actions: seq<Action>, effects: seq<Effect>, path: Path)
    requires forall k :: 0 <= k < |actions| ==> !Writes(actions[k], path)
    ensures Lookup(Performed(files, actions, effects).files, path) == Lookup(files, path)
  {
    hide Lookup, Writes, From;
    assert actions[..0] == [];
    StopsAtAPrefix(files, actions, effects, 0);
    var n: nat :| n <= |actions| && From(files, actions, effects, 0).files == Applied(files, actions[..n]);
    Untouched(files, actions, n, path);
  }

  // ---------------------------------------------------------------- what a run needs

  /** The first `n` steps of a phase work, but for those it skips. */
  ghost predicate AllDone(effects: seq<Effect>, n: nat, skipped: set<nat>) {
    forall k :: 0 <= k < n && k !in skipped ==> At(effects, k).Done?
  }

  /** The steps that a phase leaves out because there is no original to copy, or nothing to qualify. */
  function NotCopied(files: Files): set<nat> {
    (if Binary in files then {} else {4}) + (if Plist in files then {} else {5})
  }

  function NotStaged(files: Files, target: Path): set<nat> {
    if target in files then {} else {1}
  }

  function NotJournalled(requested: bool): set<nat> {
    if requested then {} else {2}
  }

  function NotPutBack(requested: bool, files: Files, target: Path): set<nat> {
    (if Binary in files then {} else {1}) + (if Plist in files then {} else {3})
    + (if requested && target !in files then {5} else {})
  }

  /** The private directory of the transaction is new. */
  ghost predicate Unused(token: string, files: Files) {
    forall item :: Backup(token, item) !in files
  }

  /** The originals can be read and copied and the candidate staged, and the manifest vouches for it. */
  ghost predicate Preparable(e: Setting, files: Files, target: Path, w: World) {
    && Lookup(files, LockOwner) == Some(Token(e.lock)) && Env in files && w.validEnvironment && w.fits
    && AllDone(w.effects.copying, 7, NotCopied(files))
    && (if e.requested then
          Accepted(e.sha, w.candidate) && AllDone(w.effects.staging, 6, NotStaged(files, target))
        else AllDone(w.effects.staging, 1, {}))
    && AllDone(w.effects.finishing, 1, {})
  }

  /** The manifest may go to its target without spoiling the lock, the binary or the environment. */
  predicate Placeable(e: Setting, files: Files, target: Path, c: Candidate) {
    && target != LockOwner && (target == Binary ==> e.sha(c.manifest) == e.sha(c.binary))
    && (target == Env ==> Lookup(files, Env) == Some(c.manifest))
  }

  /** The service answers as the run `start` saw, and is still fresh and alive. */
  predicate Answers(sha: Content -> Digest, w: World) {
    && w.sample.document.Some? && Identity(w.sample.document.value) == Identity(w.ready)
    && ValidateReady(w.sample.document.value, w.ready.publishedMs, w.sample.now, w.sample.pid, sha(w.candidate.binary),
                     w.sample.alive).Success?
  }

  /** Every step from the first stop on works, nothing interrupts, and the service runs the candidate. */
  ghost predicate Undisturbed(e: Setting, files: Files, target: Path, w: World) {
    && !w.interruptedPublish && !w.interruptedStart && !w.interruptedCommit
    && AllDone(w.effects.publishing, if e.requested then 9 else 6, NotJournalled(e.requested))
    && AllDone(w.effects.starting, 3, NotJournalled(e.requested))
    && AllDone(w.effects.committing, if e.requested then 3 else 1, {})
    && w.ready.executable == e.sha(w.candidate.binary)
    && (e.requested ==> w.cleanHead && Placeable(e, files, target, w.candidate) && Answers(e.sha, w))
  }

  /** The replaced files can be put back, and what ran before can be started again. */
  ghost predicate Restorable(e: Setting, files: Files, target: Path, w: World) {
    && w.rollsBack
    && AllDone(w.effects.restoring, if e.requested then 8 else 5,
               NotPutBack(e.requested, files, target))
    && (Plist in files ==>
          Binary in files && w.priorReady.executable == e.sha(files[Binary])
          && AllDone(w.effects.restarting, 3, NotJournalled(e.requested)))
  }

  /** What a path outside the transaction's own directory holds after a ready run. */
  function HeldWhenReady(e: Setting, files: Files, target: Path, c: Candidate, path: Path): Option<Content> {
    if e.requested && path == target then Some(c.manifest)
    else if path == Binary then Some(c.binary)
    else if path == Plist then Some(c.plist)
    else Lookup(files, path)
  }

  // ---------------------------------------------------------------- prepare

  /** The state that `prepare` hands on. */
  function StateOf(e: Setting, files: Files, target: Path, c: Candidate): State {
    var q := if e.requested then Some(QualifiedBy(e.sha, files, target, c)) else None;
    State(true, Binary in files, Plist in files, q)
  }

  /** The private directory holds these copies and candidates, and everything outside is as it was. */
  ghost predicate Copies(token: string, origin: Files, files: Files) {
    && (forall path :: !Own(token, path) ==> Lookup(files, path) == Lookup(origin, path))
    && Lookup(files, Backup(token, OldBinary)) == Lookup(origin, Binary)
    && Lookup(files, Backup(token, OldPlist)) == Lookup(origin, Plist)
    && Lookup(files, Backup(token, OldEnv)) == Lookup(origin, Env)
  }

  predicate OldCopy(item: Item) {
    item.OldBinary? || item.OldPlist? || item.OldEnv?
  }

  ghost predicate NothingStaged(token: string, files: Files) {
    forall item :: !OldCopy(item) ==> Backup(token, item) !in files
  }

  ghost predicate Candidates(e: Setting, origin: Files, target: Path, c: Candidate, files: Files) {
    && Lookup(files, Backup(e.token, CandidateBinary)) == Some(c.binary)
    && (e.requested ==> && Lookup(files, Backup(e.token, CandidateManifest)) == Some(c.manifest)
                        && Lookup(files, Backup(e.token, OldManifest)) == Lookup(origin, target))
  }

  ghost predicate Prepared(e: Setting, origin: Files, target: Path, c: Candidate, files: Files) {
    && Copies(e.token, origin, files) && Candidates(e, origin, target, c, files)
    && Lookup(files, Backup(e.token, CandidatePlist)) == Some(c.plist)
  }

  lemma CopyingCompletes(e: Setting, files: Files, w: World)
    requires Unused(e.token, files)
    ensures var a := CopyActions(e.token, e.lock, files, w.validEnvironment);
            && CreatesNew(files, a)
            && (AllWork(a, w.effects.copying) <==> && Locked(files, e.lock) && Env in files && w.validEnvironment
                                                   && AllDone(w.effects.copying, 7, NotCopied(files)))
  {
    hide At, Locked;
    var a, es := CopyActions(e.token, e.lock, files, w.validEnvironment), w.effects.copying;
    assert AllWork(a, es) <==>
           && Works(a[0], At(es, 0)) && Works(a[1], At(es, 1)) && Works(a[2], At(es, 2)) && Works(a[3], At(es, 3))
           && Works(a[4], At(es, 4)) && Works(a[5], At(es, 5)) && Works(a[6], At(es, 6));
    assert AllDone(es, 7, NotCopied(files)) <==>
           && At(es, 0).Done? && At(es, 1).Done? && At(es, 2).Done? && At(es, 3).Done?
           && (Binary in files ==> At(es, 4).Done?) && (Plist in files ==> At(es, 5).Done?) && At(es, 6).Done?;
  }

  /** A copy made only if there is an original, to a path that was new. */
  lemma CopyStands(files: Files, actions: seq<Action>, i: nat, path: Path, content: Option<Content>)
    requires i < |actions| && actions[i] == Staged(path, content) && path !in files
    requires forall k :: 0 <= k < |actions| && k != i ==> !Writes(actions[k], path)
    ensures Lookup(Applied(files, actions), path) == content
  {
    hide Applied;
    if content.Some? { LastWrites(files, actions, i, path); } else { NoneWrites(files, actions, path); }
  }

  lemma CopiedFiles(e: Setting, files: Files, valid: bool)
    requires Unused(e.token, files)
    ensures var after := Applied(files, CopyActions(e.token, e.lock, files, valid));
            && Copies(e.token, files, after)
            && NothingStaged(e.token, after)
  {
    var a := CopyActions(e.token, e.lock, files, valid);
    hide Applied, Locked;
    CopyStands(files, a, 4, Backup(e.token, OldBinary), Lookup(files, Binary));
    CopyStands(files, a, 5, Backup(e.token, OldPlist), Lookup(files, Plist));
    CopyStands(files, a, 6, Backup(e.token, OldEnv), Lookup(files, Env));
    forall path | path != Backup(e.token, OldBinary) && path != Backup(e.token, OldPlist)
                  && path != Backup(e.token, OldEnv)
      ensures Lookup(Applied(files, a), path) == Lookup(files, path) {
      NoneWrites(files, a, path);
    }
    forall item | !OldCopy(item)
      ensures Backup(e.token, item) !in Applied(files, a) {
      assert Lookup(Applied(files, a), Backup(e.token, item)) == None;
    }
  }

  /** The copies stand while only the candidate's own files are written. */
  lemma CopiesStay(token: string, origin: Files, before: Files, after: Files)
    requires Copies(token, origin, before)
    requires forall path :: !Own(token, path) || OldCopy(path.item) ==>
               Lookup(after, path) == Lookup(before, path)
    ensures Copies(token, origin, after)
  {
  }

  lemma StagingCompletes(e: Setting, origin: Files, files: Files, target: Path, w: World)
    requires Copies(e.token, origin, files) && !Own(e.token, target)
    requires NothingStaged(e.token, files)
    ensures var a := CandidateActions(e, files, target, w.candidate);
            && CreatesNew(files, a)
            && (AllWork(a, w.effects.staging) <==>
                  if e.requested then Accepted(e.sha, w.candidate)
                     && AllDone(w.effects.staging, 6, NotStaged(origin, target))
                  else AllDone(w.effects.staging, 1, {}))
  {
    hide At, Accepted;
    var a, es := CandidateActions(e, files, target, w.candidate), w.effects.staging;
    assert Lookup(files, target) == Lookup(origin, target);
    if e.requested {
      assert AllWork(a, es) <==>
             && Works(a[0], At(es, 0)) && Works(a[1], At(es, 1)) && Works(a[2], At(es, 2)) && Works(a[3], At(es, 3))
             && Works(a[4], At(es, 4)) && Works(a[5], At(es, 5));
      assert AllDone(es, 6, NotStaged(origin, target)) <==>
             && At(es, 0).Done? && (target in origin ==> At(es, 1).Done?) && At(es, 2).Done? && At(es, 3).Done?
             && At(es, 4).Done? && At(es, 5).Done?;
    } else {
      assert AllWork(a, es) <==> Works(a[0], At(es, 0));
    }
  }

  lemma StagedFiles(e: Setting, origin: Files, files: Files, target: Path, w: World)
    requires Copies(e.token, origin, files) && !Own(e.token, target) && NothingStaged(e.token, files)
    ensures var after := Applied(files, CandidateActions(e, files, target, w.candidate));
            && Copies(e.token, origin, after) && Candidates(e, origin, target, w.candidate, after)
            && Backup(e.token, CandidatePlist) !in after
  {
    var a := CandidateActions(e, files, target, w.candidate);
    hide Applied, Accepted, Copies;
    CandidatesStaged(e, files, target, w.candidate);
    TargetIs(e, origin, files, target);
    forall path | !Own(e.token, path) || OldCopy(path.item) || path.item.CandidatePlist?
      ensures Lookup(Applied(files, a), path) == Lookup(files, path) {
      NoneWrites(files, a, path);
    }
    CopiesStay(e.token, origin, files, Applied(files, a));
    assert Lookup(Applied(files, a), Backup(e.token, CandidatePlist)) == None;
  }

  lemma TargetIs(e: Setting, origin: Files, files: Files, target: Path)
    requires Copies(e.token, origin, files) && !Own(e.token, target)
    ensures Lookup(files, target) == Lookup(origin, target)
  {
  }

  lemma CandidatesStaged(e: Setting, files: Files, target: Path, c: Candidate)
    requires NothingStaged(e.token, files)
    ensures var after := Applied(files, CandidateActions(e, files, target, c));
            && Lookup(after, Backup(e.token, CandidateBinary)) == Some(c.binary)
            && (e.requested ==> && Lookup(after, Backup(e.token, CandidateManifest)) == Some(c.manifest)
                                && Lookup(after, Backup(e.token, OldManifest)) == Lookup(files, target))
  {
    var a := CandidateActions(e, files, target, c);
    hide Applied, Accepted;
    if e.requested {
      CopyStands(files, a, 1, Backup(e.token, OldManifest), Lookup(files, target));
      LastWrites(files, a, 2, Backup(e.token, CandidateBinary));
      LastWrites(files, a, 3, Backup(e.token, CandidateManifest));
    } else {
      LastWrites(files, a, 0, Backup(e.token, CandidateBinary));
    }
  }

  lemma FinishingCompletes(e: Setting, origin: Files, files: Files, target: Path, w: World)
    requires Copies(e.token, origin, files) && Candidates(e, origin, target, w.candidate, files)
    requires Backup(e.token, CandidatePlist) !in files
    ensures var a := [Create(Backup(e.token, CandidatePlist), w.candidate.plist)];
            && CreatesNew(files, a) && (AllWork(a, w.effects.finishing) <==> AllDone(w.effects.finishing, 1, {}))
            && Prepared(e, origin, target, w.candidate, Applied(files, a))
  {
    hide At, Applied;
    var a := [Create(Backup(e.token, CandidatePlist), w.candidate.plist)];
    LastWrites(files, a, 0, Backup(e.token, CandidatePlist));
    forall path | path != Backup(e.token, CandidatePlist)
      ensures Lookup(Applied(files, a), path) == Lookup(files, path) {
      NoneWrites(files, a, path);
    }
    CopiesStay(e.token, origin, files, Applied(files, a));
    assert AllWork(a, w.effects.finishing) <==> Works(a[0], At(w.effects.finishing, 0));
  }

  /** `prepare` completes exactly when it can, and then has copied, staged and recorded everything. */
  lemma PreparesExactly(e: Setting, files: Files, target: Path, w: World)
    requires Unused(e.token, files) && !Own(e.token, target)
    ensures var p := InstallPhases.Prepare(e, files, target, w);
            && (p.progress.ok <==> Preparable(e, files, target, w))
            && (p.progress.ok ==> p.state == StateOf(e, files, target, w.candidate)
                                  && Prepared(e, files, target, w.candidate, p.progress.files))
  {
    hide Performed, CopyActions, CandidateActions, Applied, AllWork, CreatesNew, AllDone, Accepted, Copies, Candidates;
    var copies := CopyActions(e.token, e.lock, files, w.validEnvironment);
    CopyingCompletes(e, files, w);
    CompletesIfAllWork(files, copies, w.effects.copying);
    LockIs(files, e.lock);
    if AllWork(copies, w.effects.copying) {
      CopiedFiles(e, files, w.validEnvironment);
      var copied := Applied(files, copies);
      SameTarget(e, files, copied, target, w.candidate);
      StagingCompletes(e, files, copied, target, w);
      StagedFiles(e, files, copied, target, w);
      var stages := CandidateActions(e, copied, target, w.candidate);
      CompletesIfAllWork(copied, stages, w.effects.staging);
      FinishingCompletes(e, files, Applied(copied, stages), target, w);
      CompletesIfAllWork(Applied(copied, stages), [Create(Backup(e.token, CandidatePlist), w.candidate.plist)],
                         w.effects.finishing);
    }
  }

  lemma LockIs(files: Files, lock: string)
    ensures Locked(files, lock) <==> Lookup(files, LockOwner) == Some(Token(lock))
  {
  }

  lemma SameTarget(e: Setting, origin: Files, files: Files, target: Path, c: Candidate)
    requires Copies(e.token, origin, files) && !Own(e.token, target)
    ensures QualifiedBy(e.sha, files, target, c) == QualifiedBy(e.sha, origin, target, c)
  {
    assert Lookup(files, target) == Lookup(origin, target);
  }

  // ---------------------------------------------------------------- publish, start and commit

  /** The candidates are in their places, and the private directory still holds what it did. */
  ghost predicate Published(e: Setting, origin: Files, target: Path, c: Candidate, files: Files) {
    && (forall path :: !Own(e.token, path) ==> Lookup(files, path) == HeldWhenReady(e, origin, target, c, path))
    && Lookup(files, Backup(e.token, OldEnv)) == Lookup(origin, Env)
  }

  lemma PublishChecks(e: Setting, origin: Files, target: Path, w: World, files: Files)
    requires Prepared(e, origin, target, w.candidate, files) && Env in origin && !Own(e.token, target)
    ensures var s := StateOf(e, origin, target, w.candidate);
            && (Publishable(e.sha, e.token, s, files, w.cleanHead) <==> (e.requested ==> w.cleanHead))
            && (SameDigest(e.sha, Lookup(files, Backup(e.token, CandidateFor(s, Binary))),
                           Lookup(files, Backup(e.token, CandidateBinary)))
                <==> (e.requested && target == Binary ==> e.sha(w.candidate.manifest) == e.sha(w.candidate.binary)))
            && (Locked(files, e.lock) <==> Locked(origin, e.lock))
  {
    assert Lookup(files, Env) == Lookup(origin, Env) && Lookup(files, LockOwner) == Lookup(origin, LockOwner);
  }

  lemma PublishingCompletes(e: Setting, origin: Files, target: Path, w: World, files: Files)
    requires Prepared(e, origin, target, w.candidate, files) && !Own(e.token, target)
    requires Env in origin && Locked(origin, e.lock)
    ensures var a := PublishActions(e.sha, e.token, e.lock, StateOf(e, origin, target, w.candidate), files,
                                    w.cleanHead);
            && CreatesNew(files, a)
            && (AllWork(a, w.effects.publishing) <==>
                  && AllDone(w.effects.publishing, if e.requested then 9 else 6, NotJournalled(e.requested))
                  && (e.requested ==> w.cleanHead)
                  && (e.requested && target == Binary ==> e.sha(w.candidate.manifest) == e.sha(w.candidate.binary)))
  {
    var s, es := StateOf(e, origin, target, w.candidate), w.effects.publishing;
    var a := PublishActions(e.sha, e.token, e.lock, s, files, w.cleanHead);
    PublishChecks(e, origin, target, w, files);
    PublishList(e.sha, e.token, e.lock, s, files, w.cleanHead);
    hide At, Prepared, Publishable, SameDigest, Locked, PublishActions;
    if e.requested {
      assert AllWork(a, es) <==>
             && Works(a[0], At(es, 0)) && Works(a[1], At(es, 1)) && Works(a[2], At(es, 2)) && Works(a[3], At(es, 3))
             && Works(a[4], At(es, 4)) && Works(a[5], At(es, 5)) && Works(a[6], At(es, 6)) && Works(a[7], At(es, 7))
             && Works(a[8], At(es, 8));
    } else {
      assert AllWork(a, es) <==>
             && Works(a[0], At(es, 0)) && Works(a[1], At(es, 1)) && Works(a[2], At(es, 2)) && Works(a[3], At(es, 3))
             && Works(a[4], At(es, 4)) && Works(a[5], At(es, 5));
    }
  }

  lemma PublishedFiles(e: Setting, origin: Files, target: Path, w: World, files: Files)
    requires Prepared(e, origin, target, w.candidate, files) && !Own(e.token, target)
    ensures var a := PublishActions(e.sha, e.token, e.lock, StateOf(e, origin, target, w.candidate), files,
                                    w.cleanHead);
            Published(e, origin, target, w.candidate, Applied(files, a))
  {
    var s := StateOf(e, origin, target, w.candidate);
    var a := PublishActions(e.sha, e.token, e.lock, s, files, w.cleanHead);
    PublishList(e.sha, e.token, e.lock, s, files, w.cleanHead);
    hide Applied, Publishable, SameDigest, Locked, PublishActions;
    forall path | !Own(e.token, path) || path == Backup(e.token, OldEnv)
      ensures Lookup(Applied(files, a), path) ==
              if Own(e.token, path) then Lookup(files, path) else HeldWhenReady(e, origin, target, w.candidate, path) {
      if e.requested && path == target {
        LastWrites(files, a, 6, path);
      } else if path == Binary {
        LastWrites(files, a, 3, path);
      } else if path == Plist {
        LastWrites(files, a, 4, path);
      } else {
        NoneWrites(files, a, path);
      }
    }
  }

  lemma StartingCompletes(e: Setting, origin: Files, target: Path, w: World, files: Files)
    requires Published(e, origin, target, w.candidate, files) && Locked(origin, e.lock)
    requires e.requested && target == Binary ==> e.sha(w.candidate.manifest) == e.sha(w.candidate.binary)
    requires e.requested ==> w.candidate.manifest.ManifestFile?
    ensures var s := StateOf(e, origin, target, w.candidate);
            var a := StartActions(e.sha, e.token, e.lock, s, files, w.ready);
            && CreatesNew(files, a)
            && (AllWork(a, w.effects.starting) <==>
                  && AllDone(w.effects.starting, 3, NotJournalled(e.requested))
                  && !(e.requested && target == LockOwner) && w.ready.executable == e.sha(w.candidate.binary))
  {
    var s, es := StateOf(e, origin, target, w.candidate), w.effects.starting;
    var a := StartActions(e.sha, e.token, e.lock, s, files, w.ready);
    hide At;
    assert Lookup(files, LockOwner) == HeldWhenReady(e, origin, target, w.candidate, LockOwner);
    assert Lookup(files, Binary) == HeldWhenReady(e, origin, target, w.candidate, Binary);
    assert Lookup(files, Plist) == HeldWhenReady(e, origin, target, w.candidate, Plist);
    assert AllWork(a, es) <==> Works(a[0], At(es, 0)) && Works(a[1], At(es, 1)) && Works(a[2], At(es, 2));
  }

  lemma StartedFiles(e: Setting, origin: Files, target: Path, w: World, files: Files)
    requires Published(e, origin, target, w.candidate, files)
    ensures var s := StateOf(e, origin, target, w.candidate);
            var after := Applied(files, StartActions(e.sha, e.token, e.lock, s, files, w.ready));
            && Published(e, origin, target, w.candidate, after)
            && (e.requested ==> Lookup(after, Backup(e.token, VerifiedReady)) == Some(ReadyFile(w.ready)))
  {
    var s := StateOf(e, origin, target, w.candidate);
    var a := StartActions(e.sha, e.token, e.lock, s, files, w.ready);
    hide Applied, Locked;
    if e.requested { LastWrites(files, a, 2, Backup(e.token, VerifiedReady)); }
    forall path | path != Backup(e.token, VerifiedReady) ensures Lookup(Applied(files, a), path) ==
                    Lookup(files, path) {
      NoneWrites(files, a, path);
    }
  }

  lemma CommitChecks(e: Setting, origin: Files, target: Path, w: World, files: Files)
    requires Published(e, origin, target, w.candidate, files) && e.requested && !Own(e.token, target)
    requires target == Binary ==> e.sha(w.candidate.manifest) == e.sha(w.candidate.binary)
    requires Lookup(files, Backup(e.token, VerifiedReady)) == Some(ReadyFile(w.ready)) && Env in origin
    ensures Committable(e.sha, e.token, QualifiedBy(e.sha, origin, target, w.candidate), files, w.sample) <==>
              Answers(e.sha, w) && (target == Env ==> Lookup(origin, Env) == Some(w.candidate.manifest))
  {
    hide ValidateReady;
    if w.sample.document.Some? { SuccessIs(w.sample, w.ready.publishedMs, e.sha(w.candidate.binary)); }
    assert Lookup(files, Binary) == HeldWhenReady(e, origin, target, w.candidate, Binary);
    assert Lookup(files, target) == HeldWhenReady(e, origin, target, w.candidate, target);
    assert Lookup(files, Env) == HeldWhenReady(e, origin, target, w.candidate, Env);
  }

  lemma SuccessIs(sample: Sample, startMs: int, expected: Digest)
    requires sample.document.Some?
    ensures var r := ValidateReady(sample.document.value, startMs, sample.now, sample.pid, expected, sample.alive);
            r.Success? ==> r.value == Identity(sample.document.value)
  {
  }

  lemma CommittingCompletes(e: Setting, origin: Files, target: Path, w: World, files: Files)
    requires Published(e, origin, target, w.candidate, files) && Locked(origin, e.lock) && !Own(e.token, target)
    requires e.requested ==> target != LockOwner && Env in origin
    requires e.requested && target == Binary ==> e.sha(w.candidate.manifest) == e.sha(w.candidate.binary)
    requires e.requested ==> Lookup(files, Backup(e.token, VerifiedReady)) == Some(ReadyFile(w.ready))
    ensures var s := StateOf(e, origin, target, w.candidate);
            var a := CommitActions(e.sha, e.token, e.lock, s, files, w.sample);
            && CreatesNew(files, a)
            && (AllWork(a, w.effects.committing) <==>
                  && AllDone(w.effects.committing, if e.requested then 3 else 1, {})
                  && (e.requested ==> && Answers(e.sha, w)
                                      && (target == Env ==> Lookup(origin, Env) == Some(w.candidate.manifest))))
  {
    var s, es := StateOf(e, origin, target, w.candidate), w.effects.committing;
    var a := CommitActions(e.sha, e.token, e.lock, s, files, w.sample);
    hide At, Committable;
    assert Lookup(files, LockOwner) == HeldWhenReady(e, origin, target, w.candidate, LockOwner);
    if e.requested {
      CommitChecks(e, origin, target, w, files);
      assert AllWork(a, es) <==> Works(a[0], At(es, 0)) && Works(a[1], At(es, 1)) && Works(a[2], At(es, 2));
    } else {
      assert AllWork(a, es) <==> Works(a[0], At(es, 0));
    }
  }

  lemma CommittedFiles(e: Setting, origin: Files, target: Path, w: World, files: Files)
    requires Published(e, origin, target, w.candidate, files)
    ensures var s := StateOf(e, origin, target, w.candidate);
            var after := Applied(files, CommitActions(e.sha, e.token, e.lock, s, files, w.sample));
            && Published(e, origin, target, w.candidate, after)
            && (e.requested ==>
                  Lookup(after, Backup(e.token, Journal)) ==
                    Some(JournalFile(Committed, QualifiedBy(e.sha, origin, target, w.candidate), w.sample.document)))
  {
    var s := StateOf(e, origin, target, w.candidate);
    var a := CommitActions(e.sha, e.token, e.lock, s, files, w.sample);
    hide Applied, Locked, Committable;
    if e.requested { LastWrites(files, a, 2, Backup(e.token, Journal)); }
    forall path | path != Backup(e.token, Journal) ensures Lookup(Applied(files, a), path) == Lookup(files, path) {
      NoneWrites(files, a, path);
    }
  }

  // ---------------------------------------------------------------- ready runs

  lemma RollBackIsNotReady(e: Setting, s: State, files: Files, w: World)
    ensures !InstallPhases.RollBack(e, s, files, w).end.Ready?
  {
  }

  /** From the first stop on, a prepared run becomes ready exactly if nothing disturbs it. */
  lemma ProceedsExactly(e: Setting, origin: Files, target: Path, w: World, files: Files)
    requires Prepared(e, origin, target, w.candidate, files) && !Own(e.token, target)
    requires Env in origin && Locked(origin, e.lock) && (e.requested ==> w.candidate.manifest.ManifestFile?)
    ensures var o := InstallPhases.Proceed(e, StateOf(e, origin, target, w.candidate), files, w);
            && (o.end.Ready? <==> Undisturbed(e, origin, target, w))
            && (o.end.Ready? ==> && Published(e, origin, target, w.candidate, o.files)
                                 && (e.requested ==> SaysCommitted(e, origin, target, w, o.files)))
  {
    hide Performed, Applied, AllWork, CreatesNew, AllDone, Published, Prepared, Answers, Locked;
    hide PublishActions, StartActions, CommitActions, InstallPhases.RollBack;
    var s := StateOf(e, origin, target, w.candidate);
    forall f ensures !InstallPhases.RollBack(e, s, f, w).end.Ready? { RollBackIsNotReady(e, s, f, w); }
    PublishingCompletes(e, origin, target, w, files);
    PublishedFiles(e, origin, target, w, files);
    var a := PublishActions(e.sha, e.token, e.lock, s, files, w.cleanHead);
    CompletesIfAllWork(files, a, w.effects.publishing);
    if AllWork(a, w.effects.publishing) {
      var published := Applied(files, a);
      StartingCompletes(e, origin, target, w, published);
      StartedFiles(e, origin, target, w, published);
      var b := StartActions(e.sha, e.token, e.lock, s, published, w.ready);
      CompletesIfAllWork(published, b, w.effects.starting);
      if AllWork(b, w.effects.starting) {
        var started := Applied(published, b);
        CommittingCompletes(e, origin, target, w, started);
        CommittedFiles(e, origin, target, w, started);
        CompletesIfAllWork(started, CommitActions(e.sha, e.token, e.lock, s, started, w.sample), w.effects.committing);
      }
    }
  }

  /** The journal records the committed candidate and the run of the service it was committed for. */
  predicate SaysCommitted(e: Setting, origin: Files, target: Path, w: World, files: Files) {
    Lookup(files, Backup(e.token, Journal)) ==
      Some(JournalFile(Committed, QualifiedBy(e.sha, origin, target, w.candidate), w.sample.document))
  }

  lemma PreparableNeeds(e: Setting, files: Files, target: Path, w: World)
    requires Preparable(e, files, target, w)
    ensures Locked(files, e.lock) && Env in files && (e.requested ==> w.candidate.manifest.ManifestFile?)
  {
  }

  /**
   A run of the installer is ready exactly when the originals can be copied and the candidate
   staged, and from then on nothing disturbs it. Then each replaced path holds its candidate,
   every other file outside the private directory is as it was, and a qualified run's journal
   says committed.
   */
  lemma ReadyExactly(e: Setting, files: Files, target: Path, w: World)
    requires Unused(e.token, files) && !Own(e.token, target)
    ensures var run := InstallPhases.Install(e, files, target, w);
            && (run.end.Ready? <==> Preparable(e, files, target, w) && w.stops && Undisturbed(e, files, target, w))
            && (run.end.Ready? ==>
                  && (forall path :: !Own(e.token, path) ==>
                        Lookup(run.files, path) == HeldWhenReady(e, files, target, w.candidate, path))
                  && (e.requested ==> SaysCommitted(e, files, target, w, run.files)))
  {
    hide Preparable, Undisturbed, Prepared, Unused, Locked, InstallPhases.Prepare, InstallPhases.Proceed;
    PreparesExactly(e, files, target, w);
    if Preparable(e, files, target, w) {
      PreparableNeeds(e, files, target, w);
      ProceedsExactly(e, files, target, w, InstallPhases.Prepare(e, files, target, w).progress.files);
    }
  }

  /** A run interrupted in any phase after the first stop is never ready, whatever else happens. */
  lemma InterruptedIsNeverReady(e: Setting, files: Files, target: Path, w: World)
    requires w.interruptedPublish || w.interruptedStart || w.interruptedCommit
    ensures !InstallPhases.Install(e, files, target, w).end.Ready?
  {
    hide Performed, InstallPhases.Prepare, PublishActions, StartActions, CommitActions, InstallPhases.RollBack;
    var p := InstallPhases.Prepare(e, files, target, w);
    forall f ensures !InstallPhases.RollBack(e, p.state, f, w).end.Ready? { RollBackIsNotReady(e, p.state, f, w); }
  }

  // ---------------------------------------------------------------- rolled-back runs

  /** The paths no phase writes after `prepare`, but for the journals and what `publish` replaces. */
  predicate Spared(e: Setting, target: Path, path: Path) {
    if Own(e.token, path) then OldCopy(path.item) || path.item.OldManifest?
    else path != Binary && path != Plist && (e.requested ==> path != target)
  }

  /** The copies of the originals stand, and what is not replaced is as it was. */
  ghost predicate Kept(e: Setting, origin: Files, target: Path, files: Files) {
    && Lookup(files, Backup(e.token, OldBinary)) == Lookup(origin, Binary)
    && Lookup(files, Backup(e.token, OldPlist)) == Lookup(origin, Plist)
    && (e.requested ==> Lookup(files, Backup(e.token, OldManifest)) == Lookup(origin, target))
    && forall path :: !Own(e.token, path) && Spared(e, target, path) ==> Lookup(files, path) == Lookup(origin, path)
  }

  ghost predicate Spares(e: Setting, target: Path, actions: seq<Action>) {
    forall k, path :: 0 <= k < |actions| && Spared(e, target, path) ==> !Writes(actions[k], path)
  }

  lemma KeptStays(e: Setting, origin: Files, target: Path, files: Files, actions: seq<Action>, effects: seq<Effect>)
    requires Kept(e, origin, target, files) && Spares(e, target, actions)
    ensures Kept(e, origin, target, Performed(files, actions, effects).files)
  {
    hide Performed;
    forall path | Spared(e, target, path)
      ensures Lookup(Performed(files, actions, effects).files, path) == Lookup(files, path) {
      UntouchedAnyway(files, actions, effects, path);
    }
  }

  lemma PhasesSpare(e: Setting, origin: Files, target: Path, w: World, files: Files)
    requires !Own(e.token, target)
    ensures var s := StateOf(e, origin, target, w.candidate);
            && Spares(e, target, PublishActions(e.sha, e.token, e.lock, s, files, w.cleanHead))
            && Spares(e, target, StartActions(e.sha, e.token, e.lock, s, files, w.ready))
            && Spares(e, target, CommitActions(e.sha, e.token, e.lock, s, files, w.sample))
  {
    var s := StateOf(e, origin, target, w.candidate);
    hide Spares, PublishActions, StartActions, CommitActions, QualifiedBy;
    QualifiedIs(e, origin, target, w.candidate);
    PublishSpares(e, target, s, files, w.cleanHead);
    StartSpares(e, target, s, files, w.ready);
    CommitSpares(e, target, s, files, w.sample);
  }

  lemma StartSpares(e: Setting, target: Path, s: State, files: Files, ready: Document)
    ensures Spares(e, target, StartActions(e.sha, e.token, e.lock, s, files, ready))
  {
    hide Locked, Lookup;
  }

  lemma CommitSpares(e: Setting, target: Path, s: State, files: Files, sample: Sample)
    ensures Spares(e, target, CommitActions(e.sha, e.token, e.lock, s, files, sample))
  {
    hide Locked, Lookup, Committable;
  }

  lemma PublishSpares(e: Setting, target: Path, s: State, files: Files, cleanHead: bool)
    requires !Own(e.token, target) && (s.qualified.Some? <==> e.requested)
    requires s.qualified.Some? ==> s.qualified.value.target == target
    ensures Spares(e, target, PublishActions(e.sha, e.token, e.lock, s, files, cleanHead))
  {
    PublishList(e.sha, e.token, e.lock, s, files, cleanHead);
    hide Publishable, SameDigest, Locked, PublishActions, Lookup;
  }

  lemma PreparedIsKept(e: Setting, origin: Files, target: Path, c: Candidate, files: Files)
    requires Prepared(e, origin, target, c, files)
    ensures Kept(e, origin, target, files)
  {
  }

  /** The steps of `restore`, one by one. */
  lemma RestoreSteps(e: Setting, s: State, files: Files)
    ensures var a := RestoreActions(e.token, e.lock, s, files);
            && |a| == (if s.qualified.Some? then 8 else 5) && a[0] == Look(Locked(files, e.lock))
            && a[1] == (if s.hadBinary then Look(Backup(e.token, OldBinary) in files) else Skip)
            && a[2] == Replace(Binary, if s.hadBinary then Lookup(files, Backup(e.token, OldBinary)) else None)
            && a[3] == (if s.hadPlist then Look(Backup(e.token, OldPlist) in files) else Skip)
            && a[4] == Replace(Plist, if s.hadPlist then Lookup(files, Backup(e.token, OldPlist)) else None)
            && (s.qualified.Some? ==>
                  && a[5] == (if s.qualified.value.hadManifest then Look(Backup(e.token, OldManifest) in files)
                              else Skip)
                  && a[6] == Replace(s.qualified.value.target,
                                     if s.qualified.value.hadManifest then Lookup(files, Backup(e.token, OldManifest))
                                     else None)
                  && a[7] == JournalEntry(e.token, s, Restored, None))
  {
  }

  /** Where every check holds, the steps work exactly if those that are not skipped are done. */
  lemma WorkIsDone(actions: seq<Action>, effects: seq<Effect>, skipped: set<nat>)
    requires forall k :: 0 <= k < |actions| ==>
               (actions[k].Skip? <==> k in skipped) && (actions[k].Look? ==> actions[k].holds)
    ensures AllWork(actions, effects) <==> AllDone(effects, |actions|, skipped)
  {
    forall k | 0 <= k < |actions| ensures Works(actions[k], At(effects, k)) <==> k in skipped || At(effects, k).Done? {}
  }

  lemma RestoreChecks(e: Setting, origin: Files, target: Path, files: Files)
    requires Kept(e, origin, target, files) && Locked(origin, e.lock) && !Own(e.token, target)
    requires e.requested ==> target != LockOwner
    ensures Locked(files, e.lock) && (Binary in origin ==> Backup(e.token, OldBinary) in files)
            && (Plist in origin ==> Backup(e.token, OldPlist) in files)
            && (e.requested && target in origin ==> Backup(e.token, OldManifest) in files)
  {
    assert Lookup(files, LockOwner) == Lookup(origin, LockOwner);
  }

  lemma QualifiedIs(e: Setting, origin: Files, target: Path, c: Candidate)
    ensures var q := QualifiedBy(e.sha, origin, target, c); q.target == target && (q.hadManifest <==> target in origin)
  {
  }

  lemma RestoringCompletes(e: Setting, origin: Files, target: Path, w: World, files: Files)
    requires Kept(e, origin, target, files) && Locked(origin, e.lock) && !Own(e.token, target)
    requires e.requested ==> target != LockOwner
    ensures var a := RestoreActions(e.token, e.lock, StateOf(e, origin, target, w.candidate), files);
            && CreatesNew(files, a)
            && (AllWork(a, w.effects.restoring) <==>
                  AllDone(w.effects.restoring, if e.requested then 8 else 5, NotPutBack(e.requested, origin, target)))
  {
    var s, es := StateOf(e, origin, target, w.candidate), w.effects.restoring;
    var a := RestoreActions(e.token, e.lock, s, files);
    RestoreSteps(e, s, files);
    RestoreChecks(e, origin, target, files);
    hide At, RestoreActions, Kept, Locked, Lookup, QualifiedBy, AllWork, AllDone;
    QualifiedIs(e, origin, target, w.candidate);
    WorkIsDone(a, es, NotPutBack(e.requested, origin, target));
  }

  lemma RestoredFiles(e: Setting, origin: Files, target: Path, w: World, files: Files, path: Path)
    requires Kept(e, origin, target, files) && !Own(e.token, target) && !Own(e.token, path)
    ensures var a := RestoreActions(e.token, e.lock, StateOf(e, origin, target, w.candidate), files);
            Lookup(Applied(files, a), path) == Lookup(origin, path)
  {
    var s := StateOf(e, origin, target, w.candidate);
    var a := RestoreActions(e.token, e.lock, s, files);
    RestoreSteps(e, s, files);
    hide Applied, RestoreActions;
    if e.requested && path == target {
      LastWrites(files, a, 6, path);
    } else if path == Binary {
      LastWrites(files, a, 2, path);
    } else if path == Plist {
      LastWrites(files, a, 4, path);
    } else {
      NoneWrites(files, a, path);
    }
  }

  lemma RestartingCompletes(e: Setting, origin: Files, target: Path, w: World, files: Files)
    requires Locked(origin, e.lock) && Plist in origin
    requires forall path :: !Own(e.token, path) ==> Lookup(files, path) == Lookup(origin, path)
    ensures var a := StartActions(e.sha, e.token, e.lock, StateOf(e, origin, target, w.candidate), files, w.priorReady);
            && CreatesNew(files, a)
            && (AllWork(a, w.effects.restarting) <==>
                  && AllDone(w.effects.restarting, 3, NotJournalled(e.requested))
                  && Binary in origin && w.priorReady.executable == e.sha(origin[Binary]))
  {
    var s, es := StateOf(e, origin, target, w.candidate), w.effects.restarting;
    var a := StartActions(e.sha, e.token, e.lock, s, files, w.priorReady);
    hide At;
    assert Lookup(files, LockOwner) == Lookup(origin, LockOwner) && Lookup(files, Binary) == Lookup(origin, Binary)
           && Lookup(files, Plist) == Lookup(origin, Plist);
    assert AllWork(a, es) <==> Works(a[0], At(es, 0)) && Works(a[1], At(es, 1)) && Works(a[2], At(es, 2));
  }

  /** A failed run is rolled back exactly when the originals can be put back and what ran before starts again. */
  lemma RollsBackExactly(e: Setting, origin: Files, target: Path, w: World, files: Files)
    requires Kept(e, origin, target, files) && Locked(origin, e.lock) && !Own(e.token, target)
    requires e.requested ==> target != LockOwner
    ensures InstallPhases.RollBack(e, StateOf(e, origin, target, w.candidate), files, w).end ==
              if Restorable(e, origin, target, w) then RolledBack else Retained
  {
    hide Performed, Applied, AllWork, CreatesNew, AllDone, Kept, Locked, RestoreActions, StartActions;
    var s := StateOf(e, origin, target, w.candidate);
    var a := RestoreActions(e.token, e.lock, s, files);
    RestoringCompletes(e, origin, target, w, files);
    CompletesIfAllWork(files, a, w.effects.restoring);
    if AllWork(a, w.effects.restoring) && Plist in origin {
      var restored := Applied(files, a);
      forall path | !Own(e.token, path) ensures Lookup(restored, path) == Lookup(origin, path) {
        RestoredFiles(e, origin, target, w, files, path);
      }
      RestartingCompletes(e, origin, target, w, restored);
      CompletesIfAllWork(restored, StartActions(e.sha, e.token, e.lock, s, restored, w.priorReady),
                         w.effects.restarting);
    }
  }

  /** Where a disturbed run turns back, the copies of the originals stand. */
  lemma TurnsBack(e: Setting, origin: Files, target: Path, w: World, files: Files) returns (at: Files)
    requires Kept(e, origin, target, files) && !Own(e.token, target)
    requires !InstallPhases.Proceed(e, StateOf(e, origin, target, w.candidate), files, w).end.Ready?
    ensures var s := StateOf(e, origin, target, w.candidate);
            Kept(e, origin, target, at) && InstallPhases.Proceed(e, s, files, w) == InstallPhases.RollBack(e, s, at, w)
  {
    hide Performed, Kept, Spares, PublishActions, StartActions, CommitActions, InstallPhases.RollBack;
    var s := StateOf(e, origin, target, w.candidate);
    PhasesSpare(e, origin, target, w, files);
    KeptStays(e, origin, target, files, PublishActions(e.sha, e.token, e.lock, s, files, w.cleanHead),
              w.effects.publishing);
    var published := InstallPhases.Publish(e, s, files, w);
    if !published.ok || w.interruptedPublish { return published.files; }
    PhasesSpare(e, origin, target, w, published.files);
    KeptStays(e, origin, target, published.files,
              StartActions(e.sha, e.token, e.lock, s, published.files, w.ready), w.effects.starting);
    var started := InstallPhases.Start(e, s, published.files, w.ready, w.effects.starting);
    if !started.ok || w.interruptedStart { return started.files; }
    PhasesSpare(e, origin, target, w, started.files);
    KeptStays(e, origin, target, started.files,
              CommitActions(e.sha, e.token, e.lock, s, started.files, w.sample), w.effects.committing);
    return InstallPhases.Commit(e, s, started.files, w).files;
  }

  /**
   How every run of the installer ends, told from the files it finds and what it meets: refused
   or retained before the first stop took effect, ready, rolled back, or retained.
   */
  lemma HowARunEnds(e: Setting, files: Files, target: Path, w: World)
    requires Unused(e.token, files) && !Own(e.token, target) && (e.requested ==> target != LockOwner)
    ensures InstallPhases.Install(e, files, target, w).end ==
              if !Preparable(e, files, target, w) || !w.stops then if w.incomplete then Retained else Refused
              else if Undisturbed(e, files, target, w) then Ready
              else if Restorable(e, files, target, w) then RolledBack
              else Retained
  {
    hide Preparable, Undisturbed, Restorable, Prepared, Unused, Locked, Kept, InstallPhases.Prepare,
         InstallPhases.Proceed, InstallPhases.RollBack;
    PreparesExactly(e, files, target, w);
    if Preparable(e, files, target, w) {
      var prepared := InstallPhases.Prepare(e, files, target, w).progress.files;
      PreparableNeeds(e, files, target, w);
      ProceedsExactly(e, files, target, w, prepared);
      if !Undisturbed(e, files, target, w) {
        PreparedIsKept(e, files, target, w.candidate, prepared);
        var at := TurnsBack(e, files, target, w, prepared);
        RollsBackExactly(e, files, target, w, at);
      }
    }
  }
}
