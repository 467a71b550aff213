/**
 The files the managed installer works on, and what each phase does to them
 (deploy/service_transaction.py, `phase`) as a list of steps, any of which may fail with or
 without its effect; then the phases in the order the shell runs them
 (deploy/install-launchd.sh).
 */
module InstallPhases {
  import opened Wrappers
  import opened Json
  import opened ServiceProtocol
  import Qualification

  /** What `prepare` stages in the transaction's private backup directory. */
  datatype Item =
    | OldBinary | OldPlist | OldEnv | OldManifest
    | CandidateBinary | CandidatePlist | CandidateManifest
    | Journal | VerifiedReady

  datatype Path = Binary | Plist | Env | LockOwner | Backup(token: string, item: Item) | Other(name: string)

  datatype JournalPhase = Prepared | Publishing | Committed | Restored

  /** What `prepare` adds to the qualification part of the state. */
  datatype Qualified = Qualified(target: Path, hadManifest: bool, binarySha: Digest, manifestSha: Digest)

  datatype Content =
    | Raw(bytes: seq<int>)
    | ManifestFile(json: Value)
    | ReadyFile(document: Document)
    | JournalFile(phase: JournalPhase, qualified: Qualified, readiness: Option<Document>)
    | Token(lock: string)

  type Files = map<Path, Content>

  /** The state the shell carries from phase to phase. */
  datatype State = State(prepared: bool, hadBinary: bool, hadPlist: bool, qualified: Option<Qualified>)

  function Lookup(files: Files, path: Path): Option<Content> {
    if path in files then Some(files[path]) else None
  }

  /** The file at `path` replaced by what was there before, or removed if nothing was. */
  function Put(files: Files, path: Path, content: Option<Content>): Files {
    if content.Some? then files[path := content.value] else files - {path}
  }

  predicate Own(token: string, path: Path) {
    path.Backup? && path.token == token
  }

  // ---------------------------------------------------------------- steps

  /** How a file-system step goes. */
  datatype Effect = Done | NotDone | DoneButFailed

  /** A phase reads and checks, creates a file that must be absent, and replaces or removes files. */
  datatype Action =
    | Skip
    | Look(holds: bool)
    | Create(path: Path, content: Content)
    | Replace(path: Path, replacement: Option<Content>)

  /** The files a phase leaves, and whether it completed. */
  datatype Progress = Progress(files: Files, ok: bool)

  function Acted(files: Files, a: Action): Files {
    match a
    case Skip => files
    case Look(_) => files
    case Create(path, content) => files[path := content]
    case Replace(path, replacement) => Put(files, path, replacement)
  }

  function Step(files: Files, a: Action, effect: Effect): Progress {
    if a.Skip? then Progress(files, true)
    else if (a.Look? && !a.holds) || (a.Create? && a.path in files) || effect.NotDone? then Progress(files, false)
    else Progress(Acted(files, a), effect.Done?)
  }

  /** The effects of a phase's steps; those not listed are all done. */
  function At(effects: seq<Effect>, i: nat): Effect {
    if i < |effects| then effects[i] else Done
  }

  /** The steps from the `i`-th on, up to the first that fails. */
  function From(files: Files, actions: seq<Action>, effects: seq<Effect>, i: nat): Progress
    requires i <= |actions|
    decreases |actions| - i
  {
    if i == |actions| then Progress(files, true)
    else
      var next := Step(files, actions[i], At(effects, i));
      if next.ok then From(next.files, actions, effects, i + 1) else next
  }

  function Performed(files: Files, actions: seq<Action>, effects: seq<Effect>): Progress {
    From(files, actions, effects, 0)
  }

  /** All the steps of a list, with their effect. */
  function Applied(files: Files, actions: seq<Action>): Files {
    if actions == [] then files else Acted(Applied(files, actions[..|actions| - 1]), actions[|actions| - 1])
  }

  lemma OneStep(files: Files, actions: seq<Action>, effects: seq<Effect>, i: nat)
    requires i < |actions|
    ensures var next := Step(files, actions[i], At(effects, i));
            From(files, actions, effects, i) == if next.ok then From(next.files, actions, effects, i + 1) else next
  {
  }

  lemma NoMoreSteps(files: Files, actions: seq<Action>, effects: seq<Effect>)
    ensures From(files, actions, effects, |actions|) == Progress(files, true)
  {
  }

  /** A phase that stops anywhere has made the first writes of its list, and no other. */
  lemma {:induction false} StopsAtAPrefix(files: Files, actions: seq<Action>, effects: seq<Effect>, i: nat)
    requires i <= |actions|
    ensures var p := From(Applied(files, actions[..i]), actions, effects, i);
            exists n :: i <= n <= |actions| && p.files == Applied(files, actions[..n]) && (p.ok ==> n == |actions|)
    decreases |actions| - i
  {
    var before := Applied(files, actions[..i]);
    if i == |actions| {
      NoMoreSteps(before, actions, effects);
      assert From(before, actions, effects, i).files == Applied(files, actions[..i]);
    } else {
      OneStep(before, actions, effects, i);
      assert actions[..i + 1][..i] == actions[..i];
      assert Applied(files, actions[..i + 1]) == Acted(before, actions[i]);
      var next := Step(before, actions[i], At(effects, i));
      hide From, Acted, Applied;
      if next.ok {
        StopsAtAPrefix(files, actions, effects, i + 1);
      } else {
        assert next.files == Applied(files, actions[..i]) || next.files == Applied(files, actions[..i + 1]);
      }
    }
  }

  // ---------------------------------------------------------------- what each phase does

  predicate Locked(files: Files, lock: string) {
    Lookup(files, LockOwner) == Some(Token(lock))
  }

  /** A copy of an original, if there is one. */
  function Staged(path: Path, content: Option<Content>): Action {
    if content.Some? then Create(path, content.value) else Skip
  }

  /** `prepare`: the lock, the environment and the two installed files, then their copies. */
  function CopyActions(token: string, lock: string, files: Files, validEnvironment: bool): seq<Action> {
    [Look(Locked(files, lock)), Look(Env in files && validEnvironment), Look(true), Look(true),
     Staged(Backup(token, OldBinary), Lookup(files, Binary)), Staged(Backup(token, OldPlist), Lookup(files, Plist)),
     Staged(Backup(token, OldEnv), Lookup(files, Env))]
  }

  /** What a run installs, and what the configurator's validation is given besides. */
  datatype Candidate = Candidate(binary: Content, manifest: Content, plist: Content,
                                 identity: Value, cliSha: Value, streaming: bool)

  ghost predicate Accepted(sha: Content -> Digest, c: Candidate) {
    c.manifest.ManifestFile?
    && Qualification.ManifestAccepted(c.manifest.json, c.identity, Str(sha(c.binary).digits), c.cliSha, c.streaming)
  }

  function QualifiedBy(sha: Content -> Digest, files: Files, target: Path, c: Candidate): Qualified {
    Qualified.Qualified(target, target in files, sha(c.binary), sha(c.manifest))
  }

  /** `qualified_prepare`. */
  ghost function QualifiedActions(sha: Content -> Digest, token: string, files: Files, target: Path, c: Candidate)
    : seq<Action>
  {
    [Look(true), Staged(Backup(token, OldManifest), Lookup(files, target)),
     Create(Backup(token, CandidateBinary), c.binary), Create(Backup(token, CandidateManifest), c.manifest),
     Look(Accepted(sha, c)),
     Replace(Backup(token, Journal), Some(JournalFile(Prepared, QualifiedBy(sha, files, target, c), None)))]
  }

  function JournalEntry(token: string, s: State, phase: JournalPhase, readiness: Option<Document>): Action {
    if s.qualified.None? then Skip
    else Replace(Backup(token, Journal), Some(JournalFile(phase, s.qualified.value, readiness)))
  }

  /** The checks `publish` makes before it writes. */
  predicate Publishable(sha: Content -> Digest, token: string, s: State, files: Files, cleanHead: bool) {
    var binary, manifest := Lookup(files, Backup(token, CandidateBinary)),
                            Lookup(files, Backup(token, CandidateManifest));
    && binary.Some? && Backup(token, CandidatePlist) in files
    && (s.qualified.Some? ==>
          && manifest.Some? && cleanHead
          && sha(binary.value) == s.qualified.value.binarySha && sha(manifest.value) == s.qualified.value.manifestSha
          && Env in files && Lookup(files, Env) == Lookup(files, Backup(token, OldEnv)))
  }

  /** The candidate that belongs at a replaced path. */
  function CandidateFor(s: State, path: Path): Item {
    if s.qualified.Some? && path == s.qualified.value.target then CandidateManifest
    else if path.Binary? then CandidateBinary
    else CandidatePlist
  }

  predicate SameDigest(sha: Content -> Digest, a: Option<Content>, b: Option<Content>) {
    a.Some? && b.Some? && sha(a.value) == sha(b.value)
  }

  function PublishActions(sha: Content -> Digest, token: string, lock: string, s: State, files: Files, cleanHead: bool)
    : seq<Action>
  {
    var binary := Lookup(files, Backup(token, CandidateBinary));
    var installed := Lookup(files, Backup(token, CandidateFor(s, Binary)));
    [Look(Locked(files, lock) && s.prepared), Look(Publishable(sha, token, s, files, cleanHead)),
     JournalEntry(token, s, Publishing, None),
     Replace(Binary, binary), Replace(Plist, Lookup(files, Backup(token, CandidatePlist)))]
    + (if s.qualified.None? then [] else
         [Look(true), Replace(s.qualified.value.target, Lookup(files, Backup(token, CandidateManifest))), Look(true)])
    + [Look(SameDigest(sha, installed, binary))]
  }

  /** The steps of `publish`, one by one. */
  lemma PublishList(sha: Content -> Digest, token: string, lock: string, s: State, files: Files, cleanHead: bool)
    ensures var a := PublishActions(sha, token, lock, s, files, cleanHead);
            && |a| == (if s.qualified.Some? then 9 else 6)
            && a[0] == Look(Locked(files, lock) && s.prepared)
               && a[1] == Look(Publishable(sha, token, s, files, cleanHead))
            && a[2] == JournalEntry(token, s, Publishing, None)
            && a[3] == Replace(Binary, Lookup(files, Backup(token, CandidateBinary)))
            && a[4] == Replace(Plist, Lookup(files, Backup(token, CandidatePlist)))
            && (s.qualified.Some? ==>
                  && a[5] == Look(true) && a[7] == Look(true)
                  && a[6] == Replace(s.qualified.value.target, Lookup(files, Backup(token, CandidateManifest))))
            && a[|a| - 1] == Look(SameDigest(sha, Lookup(files, Backup(token, CandidateFor(s, Binary))),
                                             Lookup(files, Backup(token, CandidateBinary))))
  {
  }

  function StartActions(sha: Content -> Digest, token: string, lock: string, s: State, files: Files, ready: Document)
    : seq<Action>
  {
    [Look(Locked(files, lock)), Look(Plist in files && Binary in files && ready.executable == sha(files[Binary])),
     if s.qualified.None? then Skip else Replace(Backup(token, VerifiedReady), Some(ReadyFile(ready)))]
  }

  /** What `commit` reads of the running service. */
  datatype Sample = Sample(document: Option<Document>, now: int, pid: int, alive: bool)

  /** The checks of `commit`. */
  predicate Committable(sha: Content -> Digest, token: string, q: Qualified, files: Files, sample: Sample) {
    var verified := Lookup(files, Backup(token, VerifiedReady));
    && sample.document.Some? && verified.Some? && verified.value.ReadyFile?
    && ValidateReady(sample.document.value, verified.value.document.publishedMs, sample.now, sample.pid, q.binarySha,
                     sample.alive) == Success(Identity(verified.value.document))
    && Binary in files && sha(files[Binary]) == q.binarySha
    && q.target in files && sha(files[q.target]) == q.manifestSha
    && Env in files && Lookup(files, Env) == Lookup(files, Backup(token, OldEnv))
  }

  function CommitActions(sha: Content -> Digest, token: string, lock: string, s: State, files: Files, sample: Sample)
    : seq<Action>
  {
    [Look(Locked(files, lock))]
    + if s.qualified.None? then [] else
        [Look(Committable(sha, token, s.qualified.value, files, sample)),
         JournalEntry(token, s, Committed, sample.document)]
  }

  /** One file put back: its copy is read if there was one. */
  function PutBackActions(token: string, files: Files, path: Path, copy: Item, had: bool): seq<Action> {
    [if had then Look(Backup(token, copy) in files) else Skip,
     Replace(path, if had then Lookup(files, Backup(token, copy)) else None)]
  }

  function RestoreActions(token: string, lock: string, s: State, files: Files): seq<Action> {
    [Look(Locked(files, lock))]
    + PutBackActions(token, files, Binary, OldBinary, s.hadBinary)
    + PutBackActions(token, files, Plist, OldPlist, s.hadPlist)
    + if s.qualified.None? then [] else
        PutBackActions(token, files, s.qualified.value.target, OldManifest, s.qualified.value.hadManifest)
        + [JournalEntry(token, s, Restored, None)]
  }

  // ---------------------------------------------------------------- the shell

  /** How a whole run of the installer ends. */
  datatype Ending = Ready | RolledBack | Retained | Refused

  /** The effects of the steps of each phase. */
  datatype Effects = Effects(copying: seq<Effect>, staging: seq<Effect>, finishing: seq<Effect>,
                             publishing: seq<Effect>, starting: seq<Effect>, committing: seq<Effect>,
                             restoring: seq<Effect>, restarting: seq<Effect>)

  /**
   Everything a run meets: `stops` and `rollsBack` say whether the first stop and the one
   before a restore work, `incomplete` that a cleanup stays incomplete; an interrupt may
   follow any phase.
   */
  datatype World = World(candidate: Candidate, validEnvironment: bool, fits: bool, cleanHead: bool,
                         ready: Document, sample: Sample, priorReady: Document, effects: Effects,
                         stops: bool, incomplete: bool, rollsBack: bool,
                         interruptedPublish: bool, interruptedStart: bool, interruptedCommit: bool)

  const FRESH := State(false, false, false, None)

  /** What stays the same in a run: the digest, the backup's name, the lock's token, and whether it is qualified. */
  datatype Setting = Setting(sha: Content -> Digest, token: string, lock: string, requested: bool)

  /** `prepare` up to the copies of the originals, then the candidate, then the property list. */
  ghost function CandidateActions(e: Setting, files: Files, target: Path, c: Candidate): seq<Action> {
    if e.requested then QualifiedActions(e.sha, e.token, files, target, c)
    else [Create(Backup(e.token, CandidateBinary), c.binary)]
  }

  datatype Preparation = Preparation(progress: Progress, state: State)

  ghost function Prepare(e: Setting, files: Files, target: Path, w: World): Preparation {
    var copied := Performed(files, CopyActions(e.token, e.lock, files, w.validEnvironment), w.effects.copying);
    if !copied.ok then Preparation(copied, FRESH)
    else
      var staged := Performed(copied.files, CandidateActions(e, copied.files, target, w.candidate), w.effects.staging);
      if !staged.ok then Preparation(staged, FRESH)
      else
        var finished := Performed(staged.files, [Create(Backup(e.token, CandidatePlist), w.candidate.plist)],
                                  w.effects.finishing);
        if !finished.ok || !w.fits then Preparation(Progress(finished.files, false), FRESH)
        else
          var q := if e.requested then Some(QualifiedBy(e.sha, copied.files, target, w.candidate)) else None;
          Preparation(finished, State(true, Binary in files, Plist in files, q))
  }

  function Publish(e: Setting, s: State, files: Files, w: World): Progress {
    Performed(files, PublishActions(e.sha, e.token, e.lock, s, files, w.cleanHead), w.effects.publishing)
  }

  function Start(e: Setting, s: State, files: Files, ready: Document, effects: seq<Effect>): Progress {
    Performed(files, StartActions(e.sha, e.token, e.lock, s, files, ready), effects)
  }

  function Commit(e: Setting, s: State, files: Files, w: World): Progress {
    Performed(files, CommitActions(e.sha, e.token, e.lock, s, files, w.sample), w.effects.committing)
  }

  function Restore(e: Setting, s: State, files: Files, w: World): Progress {
    Performed(files, RestoreActions(e.token, e.lock, s, files), w.effects.restoring)
  }

  datatype Outcome = Outcome(files: Files, end: Ending)

  /** `cleanup` past the first stop: stop, restore, and start what ran before. */
  function RollBack(e: Setting, s: State, files: Files, w: World): Outcome {
    if !w.rollsBack then Outcome(files, Retained)
    else
      var restored := Restore(e, s, files, w);
      if !restored.ok then Outcome(restored.files, Retained)
      else if !s.hadPlist then Outcome(restored.files, RolledBack)
      else
        var again := Start(e, s, restored.files, w.priorReady, w.effects.restarting);
        Outcome(again.files, if again.ok then RolledBack else Retained)
  }

  /** The run from the first stop on. */
  function Proceed(e: Setting, s: State, files: Files, w: World): Outcome {
    var published := Publish(e, s, files, w);
    if !published.ok || w.interruptedPublish then RollBack(e, s, published.files, w)
    else
      var started := Start(e, s, published.files, w.ready, w.effects.starting);
      if !started.ok || w.interruptedStart then RollBack(e, s, started.files, w)
      else
        var committed := Commit(e, s, started.files, w);
        if !committed.ok || w.interruptedCommit then RollBack(e, s, committed.files, w)
        else Outcome(committed.files, Ready)
  }

  datatype Run = Run(files: Files, state: State, end: Ending)

  /** A whole run of the installer under its lock. */
  ghost function Install(e: Setting, files: Files, target: Path, w: World): Run {
    var prepared := Prepare(e, files, target, w);
    if !prepared.progress.ok || !w.stops then
      Run(prepared.progress.files, prepared.state, if w.incomplete then Retained else Refused)
    else
      var outcome := Proceed(e, prepared.state, prepared.progress.files, w);
      Run(outcome.files, prepared.state, outcome.end)
  }
}
