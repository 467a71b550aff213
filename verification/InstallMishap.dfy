/**
 One whole run of the installer, step by step, that leaves a committed journal beside the
 old binary: the commit's journal is in place when its directory sync fails, the restore puts
 the old binary back, and removing the new property list then fails.
 */
module InstallMishap {
  import opened Wrappers
  import opened Json
  import opened ServiceProtocol
  import opened Qualification
  import opened InstallPhases
  import opened InstallTransaction

  function Digits(c: char): string {
    seq(64, _ => c)
  }

  const OLD_BINARY := Raw([1])
  const NEW_BINARY := Raw([2])
  const OLD_ENV := Raw([3])
  const NEW_PLIST := Raw([4])
  const TARGET := Other("manifest")

  // ---------------------------------------------------------------- the candidate

  const FLAG := Bool(true)
  const CAPABILITIES :=
    Obj(map[Text := FLAG, Streaming := FLAG, StructuredOutput := FLAG, Tools := FLAG, Vision := FLAG, Ocr := FLAG])
  const ISOLATION :=
    Obj(map[EnvironmentCleared := FLAG, AbsoluteNoShell := FLAG, TreeContained := FLAG, PrivateState := FLAG,
            LoopbackOnly := FLAG, SandboxAttested := FLAG])
  const IDENTITY :=
    Obj(map[AbbeyBinary := Str(Digits('1')), ProviderBinary := Str(Digits('3')), OsSha := Str(Digits('4')),
            ToolSchema := Str(Digits('5'))])
  const RECORD :=
    Obj(map[Version := Int(2), FixtureVersion := Constant(FixturesV1), ProviderId := Constant(FoundationModels),
            ProviderClass := Constant(OsManagedLocal), IdentityKey := IDENTITY, DeclaredCapabilities := CAPABILITIES,
            IsolationCapabilities := ISOLATION, QualificationStatus := Constant(Word.Qualified)])
  const MANIFEST := ManifestFile(Arr([RECORD]))
  const CANDIDATE := Candidate(NEW_BINARY, MANIFEST, NEW_PLIST, IDENTITY, Str(Digits('3')), true)

  function Sha(c: Content): Digest {
    Hex(Digits(if c == NEW_BINARY then '1' else if c == MANIFEST then '2' else '0'))
  }

  /** The configurator's validation accepts the candidate's manifest. */
  lemma TheManifestIsAccepted()
    ensures Accepted(Sha, CANDIDATE)
  {
    TheRecordHasShape();
    TheRecordAuthorises();
    hide RecordShape, Authorises;
    assert SomeAuthorises([RECORD], IDENTITY, true) by { assert Authorises([RECORD][0], IDENTITY, true); }
  }

  lemma TheRecordHasShape()
    ensures RecordShape(RECORD)
  {
    hide CapabilityFlags, IsolationFlags, IdentityShape;
    TheFlagsHaveShape();
    TheIdentityHasShape();
  }

  lemma TheFlagsHaveShape()
    ensures CapabilityFlags(CAPABILITIES) && IsolationFlags(ISOLATION)
  {
  }

  lemma TheIdentityHasShape()
    ensures IdentityShape(IDENTITY) && SoundCandidate(IDENTITY, Str(Sha(NEW_BINARY).digits), Str(Digits('3')))
  {
  }

  lemma TheRecordAuthorises()
    ensures Authorises(RECORD, IDENTITY, true)
            && SoundCandidate(IDENTITY, Str(Sha(NEW_BINARY).digits), Str(Digits('3')))
  {
    TheIdentityHasShape();
    hide SoundCandidate, IdentityShape, Digits, NonNull;
    NothingIsNull();
  }

  lemma NothingIsNull()
    ensures NonNull(IDENTITY.fields) == IDENTITY.fields
  {
  }

  // ---------------------------------------------------------------- the run

  const SETTING := Setting(Sha, "t", "lock", true)
  const READY := Document(7, "nonce", Hex(Digits('1')), PhaseReady, 0, DiscordReady, SchedulerRunning)

  /** Every step works but the commit's journal sync and the removal of the property list. */
  const WORLD :=
    World(CANDIDATE, true, true, true, READY, Sample(Some(READY), 0, 7, true), READY,
          Effects([], [], [], [], [], [Done, Done, DoneButFailed], [Done, Done, Done, Done, NotDone], []),
          true, false, true, false, false, false)

  /** An installation without a property list or a manifest, under the installer's lock. */
  const BEFORE: Files := map[Binary := OLD_BINARY, Env := OLD_ENV, LockOwner := Token("lock")]

  function Kept(item: Item): Path {
    Backup("t", item)
  }

  const QUALIFIED := Qualified.Qualified(TARGET, false, Sha(NEW_BINARY), Sha(MANIFEST))
  const PREPARED := State(true, true, false, Some(QUALIFIED))

  const COPIED: Files := BEFORE[Kept(OldBinary) := OLD_BINARY][Kept(OldEnv) := OLD_ENV]
  const STAGED: Files :=
    COPIED[Kept(CandidateBinary) := NEW_BINARY][Kept(CandidateManifest) := MANIFEST]
          [Kept(Journal) := JournalFile(Prepared, QUALIFIED, None)]
  const FINISHED: Files := STAGED[Kept(CandidatePlist) := NEW_PLIST]
  const PUBLISHED: Files :=
    FINISHED[Kept(Journal) := JournalFile(Publishing, QUALIFIED, None)][Binary := NEW_BINARY][Plist := NEW_PLIST]
            [TARGET := MANIFEST]
  const STARTED: Files := PUBLISHED[Kept(VerifiedReady) := ReadyFile(READY)]
  const COMMITTED: Files := STARTED[Kept(Journal) := JournalFile(Committed, QUALIFIED, Some(READY))]
  const STOPPED: Files := COMMITTED[Binary := OLD_BINARY]

  /** The three kinds of step that work: a check or nothing, a new file, a replacement. */
  lemma Passes(files: Files, a: seq<Action>, effects: seq<Effect>, i: nat)
    requires i < |a| && (a[i].Skip? || (a[i].Look? && a[i].holds)) && At(effects, i).Done?
    ensures From(files, a, effects, i) == From(files, a, effects, i + 1)
  {
    OneStep(files, a, effects, i);
    hide From;
  }

  lemma Creates(files: Files, a: seq<Action>, effects: seq<Effect>, i: nat, path: Path, content: Content)
    requires i < |a| && a[i] == Create(path, content) && path !in files && At(effects, i).Done?
    ensures From(files, a, effects, i) == From(files[path := content], a, effects, i + 1)
  {
    OneStep(files, a, effects, i);
    hide From;
  }

  lemma Replaces(files: Files, a: seq<Action>, effects: seq<Effect>, i: nat, path: Path, content: Content)
    requires i < |a| && a[i] == Replace(path, Some(content)) && At(effects, i).Done?
    ensures From(files, a, effects, i) == From(files[path := content], a, effects, i + 1)
  {
    OneStep(files, a, effects, i);
    hide From;
  }

  lemma Copies()
    ensures Performed(BEFORE, CopyActions("t", "lock", BEFORE, true), []) == Progress(COPIED, true)
  {
    var a := CopyActions("t", "lock", BEFORE, true);
    hide From;
    var b := BEFORE[Kept(OldBinary) := OLD_BINARY];
    Passes(BEFORE, a, [], 0);
    Passes(BEFORE, a, [], 1);
    Passes(BEFORE, a, [], 2);
    Passes(BEFORE, a, [], 3);
    Creates(BEFORE, a, [], 4, Kept(OldBinary), OLD_BINARY);
    Passes(b, a, [], 5);
    Creates(b, a, [], 6, Kept(OldEnv), OLD_ENV);
    NoMoreSteps(COPIED, a, []);
  }

  lemma Stages()
    ensures Performed(COPIED, CandidateActions(SETTING, COPIED, TARGET, CANDIDATE), []) == Progress(STAGED, true)
    ensures QualifiedBy(Sha, COPIED, TARGET, CANDIDATE) == QUALIFIED
  {
    var a := CandidateActions(SETTING, COPIED, TARGET, CANDIDATE);
    TheManifestIsAccepted();
    hide From, Accepted, Sha;
    var b := COPIED[Kept(CandidateBinary) := NEW_BINARY];
    var c := b[Kept(CandidateManifest) := MANIFEST];
    Passes(COPIED, a, [], 0);
    Passes(COPIED, a, [], 1);
    Creates(COPIED, a, [], 2, Kept(CandidateBinary), NEW_BINARY);
    Creates(b, a, [], 3, Kept(CandidateManifest), MANIFEST);
    Passes(c, a, [], 4);
    Replaces(c, a, [], 5, Kept(Journal), JournalFile(Prepared, QUALIFIED, None));
    NoMoreSteps(STAGED, a, []);
  }

  lemma Finishes()
    ensures Performed(STAGED, [Create(Kept(CandidatePlist), NEW_PLIST)], []) == Progress(FINISHED, true)
  {
    var a := [Create(Kept(CandidatePlist), NEW_PLIST)];
    hide From;
    Creates(STAGED, a, [], 0, Kept(CandidatePlist), NEW_PLIST);
    NoMoreSteps(FINISHED, a, []);
  }

  lemma Prepares()
    ensures InstallPhases.Prepare(SETTING, BEFORE, TARGET, WORLD) == Preparation(Progress(FINISHED, true), PREPARED)
  {
    hide Performed, CopyActions, CandidateActions, QualifiedBy;
    Copies();
    Stages();
    Finishes();
    PreparedTo(SETTING, BEFORE, TARGET, WORLD, Progress(COPIED, true), Progress(STAGED, true),
               Progress(FINISHED, true));
  }

  lemma Publishes()
    ensures InstallPhases.Publish(SETTING, PREPARED, FINISHED, WORLD) == Progress(PUBLISHED, true)
  {
    var a := PublishActions(Sha, "t", "lock", PREPARED, FINISHED, true);
    PublishList(Sha, "t", "lock", PREPARED, FINISHED, true);
    hide From, PublishActions, Sha;
    var b := FINISHED[Kept(Journal) := JournalFile(Publishing, QUALIFIED, None)];
    var c := b[Binary := NEW_BINARY];
    var d := c[Plist := NEW_PLIST];
    Passes(FINISHED, a, [], 0);
    Passes(FINISHED, a, [], 1);
    Replaces(FINISHED, a, [], 2, Kept(Journal), JournalFile(Publishing, QUALIFIED, None));
    Replaces(b, a, [], 3, Binary, NEW_BINARY);
    Replaces(c, a, [], 4, Plist, NEW_PLIST);
    Passes(d, a, [], 5);
    Replaces(d, a, [], 6, TARGET, MANIFEST);
    Passes(PUBLISHED, a, [], 7);
    Passes(PUBLISHED, a, [], 8);
    NoMoreSteps(PUBLISHED, a, []);
  }

  lemma Starts()
    ensures InstallPhases.Start(SETTING, PREPARED, PUBLISHED, READY, []) == Progress(STARTED, true)
  {
    var a := StartActions(Sha, "t", "lock", PREPARED, PUBLISHED, READY);
    hide From;
    Passes(PUBLISHED, a, [], 0);
    Passes(PUBLISHED, a, [], 1);
    Replaces(PUBLISHED, a, [], 2, Kept(VerifiedReady), ReadyFile(READY));
    NoMoreSteps(STARTED, a, []);
  }

  /** The journal is replaced, and the phase fails. */
  lemma CommitsAndFails()
    ensures InstallPhases.Commit(SETTING, PREPARED, STARTED, WORLD) == Progress(COMMITTED, false)
  {
    var a := CommitActions(Sha, "t", "lock", PREPARED, STARTED, WORLD.sample);
    TheChecksHold();
    hide From, Committable, Sha;
    Passes(STARTED, a, WORLD.effects.committing, 0);
    Passes(STARTED, a, WORLD.effects.committing, 1);
    OneStep(STARTED, a, WORLD.effects.committing, 2);
  }

  lemma TheChecksHold()
    ensures Committable(Sha, "t", QUALIFIED, STARTED, WORLD.sample) && Locked(STARTED, "lock")
  {
    hide ValidateReady;
    TheServiceIsReady();
  }

  lemma TheServiceIsReady()
    ensures ValidateReady(READY, 0, 0, 7, Sha(NEW_BINARY), true) == Success(Identity(READY))
  {
  }

  /** The old binary is put back, and the new property list cannot be removed. */
  lemma RestoresTheBinaryOnly()
    ensures InstallPhases.Restore(SETTING, PREPARED, COMMITTED, WORLD) == Progress(STOPPED, false)
  {
    var a := RestoreActions("t", "lock", PREPARED, COMMITTED);
    var effects := WORLD.effects.restoring;
    RestoreList("t", "lock", PREPARED, COMMITTED);
    assert a[1] == a[1..3][0] && a[2] == a[1..3][1] && a[3] == a[3..5][0] && a[4] == a[3..5][1];
    hide From, RestoreActions, Sha;
    Passes(COMMITTED, a, effects, 0);
    Passes(COMMITTED, a, effects, 1);
    Replaces(COMMITTED, a, effects, 2, Binary, OLD_BINARY);
    Passes(STOPPED, a, effects, 3);
    OneStep(STOPPED, a, effects, 4);
  }

  lemma TheRun()
    ensures InstallPhases.Install(SETTING, BEFORE, TARGET, WORLD) == Run(STOPPED, PREPARED, Retained)
  {
    hide InstallPhases.Prepare, InstallPhases.Publish, InstallPhases.Start, InstallPhases.Commit, InstallPhases.Restore;
    Prepares();
    Publishes();
    Starts();
    CommitsAndFails();
    RestoresTheBinaryOnly();
  }

  /** The run is retained with a committed journal, whose receipt no longer holds for any run of the service. */
  lemma ACommittedJournalBesideTheOldBinary()
    ensures var run := InstallPhases.Install(SETTING, BEFORE, TARGET, WORLD);
            && run.end.Retained? && run.state.qualified.Some?
            && SaysCommitted("t", run.files) && Lookup(run.files, Binary) == Some(OLD_BINARY)
            && (forall ready :: !Receipt(Sha, "t", run.state.qualified.value, run.files, ready))
  {
    TheRun();
    TheJournalStays();
    hide InstallPhases.Install;
    assert Sha(OLD_BINARY).digits[0] == '0' && Sha(NEW_BINARY).digits[0] == '1';
  }

  lemma TheJournalStays()
    ensures SaysCommitted("t", STOPPED) && Lookup(STOPPED, Binary) == Some(OLD_BINARY)
  {
  }

  /** The installer's own run in that world. */
  method LeaveACommittedJournal() returns (files: Files, end: Ending)
    ensures end.Retained? && SaysCommitted("t", files) && Lookup(files, Binary) == Some(OLD_BINARY)
  {
    var installer := new Transaction(Sha, "t", "lock", true, BEFORE);
    end := installer.Install(TARGET, WORLD);
    files := installer.files;
    TheRun();
    TheJournalStays();
  }
}
