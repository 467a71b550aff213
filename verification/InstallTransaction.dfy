/**
 What the managed installer's phases keep and promise (deploy/service_transaction.py, in the
 order of deploy/install-launchd.sh), over files that are replaced atomically and where every
 write and removal may fail, with or without its effect.
 */
module InstallTransaction {
  import opened Wrappers
  import opened Json
  import opened ServiceProtocol
  import opened InstallPhases
  import Qualification

  /** The paths a transaction replaces and restores. */
  predicate Replaced(s: State, path: Path) {
    path.Binary? || path.Plist? || (s.qualified.Some? && path == s.qualified.value.target)
  }

  /** One original: whether it existed, and if so that its copy is in the backup. */
  predicate Copied(origin: Files, path: Path, had: bool, files: Files, copy: Path) {
    (had <==> path in origin) && (had ==> Lookup(files, copy) == Lookup(origin, path))
  }

  /** The backup holds what the replaced paths held in `origin`, and the environment. */
  ghost predicate Saved(token: string, s: State, origin: Files, files: Files) {
    && Copied(origin, Binary, s.hadBinary, files, Backup(token, OldBinary))
    && Copied(origin, Plist, s.hadPlist, files, Backup(token, OldPlist))
    && Copied(origin, Env, true, files, Backup(token, OldEnv))
    && (s.qualified.Some? ==>
          && !Own(token, s.qualified.value.target)
          && Copied(origin, s.qualified.value.target, s.qualified.value.hadManifest, files, Backup(token, OldManifest)))
  }

  /** Outside the backup, only replaced paths differ. */
  ghost predicate Confined(token: string, s: State, origin: Files, files: Files) {
    forall path :: !Own(token, path) && !Replaced(s, path) ==> Lookup(files, path) == Lookup(origin, path)
  }

  ghost predicate SameOutside(token: string, before: Files, after: Files) {
    forall path :: !Own(token, path) ==> Lookup(after, path) == Lookup(before, path)
  }

  /** Only these files of the backup directory differ. */
  ghost predicate OnlyItems(token: string, items: set<Item>, before: Files, after: Files) {
    forall path :: !(Own(token, path) && path.item in items) ==> Lookup(after, path) == Lookup(before, path)
  }

  lemma OnlyItemsKeeps(token: string, items: set<Item>, before: Files, after: Files, path: Path)
    requires OnlyItems(token, items, before, after) && !(Own(token, path) && path.item in items)
    ensures Lookup(after, path) == Lookup(before, path)
  {
  }

  lemma OnlyItemsIsOutside(token: string, items: set<Item>, before: Files, after: Files)
    requires OnlyItems(token, items, before, after)
    ensures SameOutside(token, before, after)
  {
  }

  lemma OutsideThen(token: string, a: Files, b: Files, c: Files)
    requires SameOutside(token, a, b) && SameOutside(token, b, c)
    ensures SameOutside(token, a, c)
  {
  }

  /** A copy stays a copy while other files of the backup change. */
  lemma CopyStays(token: string, items: set<Item>, origin: Files, path: Path, had: bool, before: Files, after: Files,
                  copy: Item)
    requires Copied(origin, path, had, before, Backup(token, copy)) && OnlyItems(token, items, before, after)
             && copy !in items
    ensures Copied(origin, path, had, after, Backup(token, copy))
  {
  }

  /** The same, for all the originals. */
  lemma OriginalsStay(token: string, items: set<Item>, origin: Files, hadBinary: bool, hadPlist: bool, before: Files,
                      after: Files)
    requires Copied(origin, Binary, hadBinary, before, Backup(token, OldBinary))
             && Copied(origin, Plist, hadPlist, before, Backup(token, OldPlist))
    requires Copied(origin, Env, true, before, Backup(token, OldEnv))
    requires OnlyItems(token, items, before, after) && !(OldBinary in items || OldPlist in items || OldEnv in items)
    ensures Copied(origin, Binary, hadBinary, after, Backup(token, OldBinary))
            && Copied(origin, Plist, hadPlist, after, Backup(token, OldPlist))
    ensures Copied(origin, Env, true, after, Backup(token, OldEnv))
  {
  }

  lemma CopiedFromSame(token: string, origin: Files, later: Files, path: Path, had: bool, files: Files, copy: Path)
    requires SameOutside(token, origin, later) && !Own(token, path) && Copied(later, path, had, files, copy)
    ensures Copied(origin, path, had, files, copy)
  {
  }

  predicate IsJournal(item: Item) {
    item.Journal? || item.VerifiedReady?
  }

  /** Backed-up originals and staged candidates are as they were. */
  ghost predicate BackupsKept(token: string, before: Files, after: Files) {
    forall item :: !IsJournal(item) ==> Lookup(after, Backup(token, item)) == Lookup(before, Backup(token, item))
  }

  // ---------------------------------------------------------------- restoring

  /** One replaced file put back from its copy, or removed if there was none. */
  function PutBack(token: string, files: Files, path: Path, copy: Item, had: bool): Files {
    Put(files, path, if had then Lookup(files, Backup(token, copy)) else None)
  }

  /** The files once the first `n` of the writes of `restore` took effect. */
  function RestoreStop(token: string, s: State, files: Files, n: nat): Files {
    var a := if n == 0 then files else PutBack(token, files, Binary, OldBinary, s.hadBinary);
    var b := if n <= 1 then a else PutBack(token, a, Plist, OldPlist, s.hadPlist);
    if n <= 2 || s.qualified.None? then b
    else PutBack(token, b, s.qualified.value.target, OldManifest, s.qualified.value.hadManifest)
  }

  /** All the writes of `restore`, before its journal entry. */
  function RestoredFiles(token: string, s: State, files: Files): Files {
    RestoreStop(token, s, files, 3)
  }

  /** The paths that the first `n` writes put back. */
  predicate PutBackBy(s: State, path: Path, n: nat) {
    || (n >= 1 && path.Binary?)
    || (n >= 2 && path.Plist?)
    || (n >= 3 && s.qualified.Some? && path == s.qualified.value.target)
  }

  /** A restore that got no further than some of its writes. */
  ghost predicate Stopped(token: string, s: State, before: Files, files: Files) {
    exists n: nat :: n <= 3 && files == RestoreStop(token, s, before, n)
  }

  lemma Stops(token: string, s: State, files: Files)
    ensures RestoreStop(token, s, files, 0) == files && Stopped(token, s, files, files)
    ensures var one := PutBack(token, files, Binary, OldBinary, s.hadBinary);
            var two := PutBack(token, one, Plist, OldPlist, s.hadPlist);
            && RestoreStop(token, s, files, 1) == one && RestoreStop(token, s, files, 2) == two
            && RestoreStop(token, s, files, 3) == (if s.qualified.None? then two else
                 PutBack(token, two, s.qualified.value.target, OldManifest, s.qualified.value.hadManifest))
  {
    hide PutBack;
  }

  predicate SaysRestored(token: string, s: State, files: Files) {
    s.qualified.Some? && Lookup(files, Backup(token, Journal)) == Some(JournalFile(Restored, s.qualified.value, None))
  }

  /** The journal says that the transaction was committed. */
  predicate SaysCommitted(token: string, files: Files) {
    var journal := Lookup(files, Backup(token, Journal));
    journal.Some? && journal.value.JournalFile? && journal.value.phase.Committed?
  }

  lemma JournalAfterRestore(token: string, s: State, before: Files, files: Files)
    requires s.qualified.Some? ==> !Own(token, s.qualified.value.target)
    requires Stopped(token, s, before, files) || SaysRestored(token, s, files)
    ensures SaysRestored(token, s, files) ==> !SaysCommitted(token, files)
    ensures SaysCommitted(token, files) ==> SaysCommitted(token, before) && Stopped(token, s, before, files)
  {
    hide RestoreStop;
    if n: nat :| n <= 3 && files == RestoreStop(token, s, before, n) { RestoreKeepsBackups(token, s, before, n); }
  }

  lemma OtherItemsKeepTheJournal(token: string, items: set<Item>, before: Files, after: Files)
    requires OnlyItems(token, items, before, after) && Journal !in items
    ensures SaysCommitted(token, after) <==> SaysCommitted(token, before)
  {
  }

  lemma PutElsewhere(files: Files, path: Path, content: Option<Content>)
    ensures Lookup(Put(files, path, content), path) == content
    ensures forall other :: other != path ==> Lookup(Put(files, path, content), other) == Lookup(files, other)
  {
  }

  /**
   Whatever happened to the replaced paths since `origin` was backed up, a complete restore
   puts back every file outside the backup directory exactly.
   */
  lemma RollbackIsExact(token: string, s: State, origin: Files, files: Files)
    requires Saved(token, s, origin, files) && Confined(token, s, origin, files)
    ensures SameOutside(token, origin, RestoredFiles(token, s, files))
    ensures BackupsKept(token, files, RestoredFiles(token, s, files))
  {
    hide RestoreStop;
    forall path | !Own(token, path) ensures Lookup(RestoreStop(token, s, files, 3), path) == Lookup(origin, path) {
      PartialRestore(token, s, origin, files, 3, path);
    }
    RestoreKeepsBackups(token, s, files, 3);
  }

  /** A restore that stopped has put back exactly the files of the writes it got through. */
  lemma PartialRestore(token: string, s: State, origin: Files, files: Files, n: nat, path: Path)
    requires Saved(token, s, origin, files) && !Own(token, path)
    ensures Lookup(RestoreStop(token, s, files, n), path) ==
              Lookup(if PutBackBy(s, path, n) then origin else files, path)
  {
    RestoreIs(token, s, files, n, path);
    hide RestoreStop;
  }

  /** What the first `n` writes put at `path`, the later ones winning. */
  function Restores(token: string, s: State, files: Files, n: nat, path: Path): Option<Content> {
    if n >= 3 && s.qualified.Some? && path == s.qualified.value.target then
      if s.qualified.value.hadManifest then Lookup(files, Backup(token, OldManifest)) else None
    else if n >= 2 && path.Plist? then if s.hadPlist then Lookup(files, Backup(token, OldPlist)) else None
    else if n >= 1 && path.Binary? then if s.hadBinary then Lookup(files, Backup(token, OldBinary)) else None
    else Lookup(files, path)
  }

  lemma RestoreIs(token: string, s: State, files: Files, n: nat, path: Path)
    requires s.qualified.Some? ==> !Own(token, s.qualified.value.target)
    ensures Lookup(RestoreStop(token, s, files, n), path) == Restores(token, s, files, n, path)
  {
    var a := if n == 0 then files else PutBack(token, files, Binary, OldBinary, s.hadBinary);
    var b := if n <= 1 then a else PutBack(token, a, Plist, OldPlist, s.hadPlist);
    PutBackIs(token, s, files, Binary, OldBinary, s.hadBinary);
    PutBackIs(token, s, a, Plist, OldPlist, s.hadPlist);
    if s.qualified.Some? {
      PutBackIs(token, s, b, s.qualified.value.target, OldManifest, s.qualified.value.hadManifest);
    }
    hide PutBack, Put;
  }

  lemma PutBackIs(token: string, s: State, files: Files, path: Path, copy: Item, had: bool)
    ensures var after := PutBack(token, files, path, copy, had);
            && Lookup(after, path) == (if had then Lookup(files, Backup(token, copy)) else None)
            && (forall other :: other != path ==> Lookup(after, other) == Lookup(files, other))
  {
    PutElsewhere(files, path, if had then Lookup(files, Backup(token, copy)) else None);
    hide Put;
  }

  lemma RestoreKeepsBackups(token: string, s: State, files: Files, n: nat)
    requires s.qualified.Some? ==> !Own(token, s.qualified.value.target)
    ensures forall item :: Lookup(RestoreStop(token, s, files, n), Backup(token, item)) ==
              Lookup(files, Backup(token, item))
  {
    forall item ensures Lookup(RestoreStop(token, s, files, n), Backup(token, item)) ==
      Lookup(files, Backup(token, item)) {
      RestoreIs(token, s, files, n, Backup(token, item));
    }
  }

  /** Restoring again after a restore that stopped anywhere, or completed, is restoring once. */
  lemma RestoreIsIdempotent(token: string, s: State, files: Files, n: nat)
    requires s.qualified.Some? ==> !Own(token, s.qualified.value.target)
    ensures RestoredFiles(token, s, RestoreStop(token, s, files, n)) == RestoredFiles(token, s, files)
  {
    var stop := RestoreStop(token, s, files, n);
    var left, right := RestoredFiles(token, s, stop), RestoredFiles(token, s, files);
    forall path ensures Lookup(left, path) == Lookup(right, path) {
      RestoreIs(token, s, files, n, path);
      RestoreIs(token, s, stop, 3, path);
      RestoreIs(token, s, files, 3, path);
      RestoreKeepsBackups(token, s, files, n);
      hide RestoreStop;
    }
    hide RestoredFiles, RestoreStop;
    SameLookups(left, right);
  }

  lemma SameLookups(a: Files, b: Files)
    requires forall path :: Lookup(a, path) == Lookup(b, path)
    ensures a == b
  {
    forall path ensures path in a <==> path in b { assert Lookup(a, path) == Lookup(b, path); }
    forall path | path in a ensures a[path] == b[path] { assert Lookup(a, path) == Lookup(b, path); }
  }

  /** From `publish` on, only replaced paths and the two journals differ. */
  ghost predicate OnlyReplaced(token: string, s: State, before: Files, after: Files) {
    forall path :: !Replaced(s, path) && path != Backup(token, Journal) && path != Backup(token, VerifiedReady) ==>
      Lookup(after, path) == Lookup(before, path)
  }

  lemma OnlyReplacedThen(token: string, s: State, a: Files, b: Files, c: Files)
    requires OnlyReplaced(token, s, a, b) && OnlyReplaced(token, s, b, c)
    ensures OnlyReplaced(token, s, a, c)
  {
  }

  lemma SavedStays(token: string, s: State, origin: Files, before: Files, after: Files)
    requires Saved(token, s, origin, before) && OnlyReplaced(token, s, before, after)
    ensures Saved(token, s, origin, after)
  {
  }

  lemma ConfinedStays(token: string, s: State, origin: Files, before: Files, after: Files)
    requires Confined(token, s, origin, before) && OnlyReplaced(token, s, before, after)
    ensures Confined(token, s, origin, after)
  {
  }

  // ---------------------------------------------------------------- what the backup says of the candidate

  /** A qualified record of the manifest names the binary's digest. */
  ghost predicate Names(manifest: Content, binary: Digest) {
    manifest.ManifestFile? && manifest.json.Arr?
    && exists i :: 0 <= i < |manifest.json.items|
           && Get(manifest.json.items[i], QualificationStatus) == Constant(Word.Qualified)
                   && Get(Get(manifest.json.items[i], IdentityKey), AbbeyBinary) == Str(binary.digits)
  }

  /** The staged candidate is the one whose digests the state records, and its manifest vouches for it. */
  ghost predicate Vouched(sha: Content -> Digest, token: string, s: State, files: Files) {
    s.qualified.Some? ==>
      && Backup(token, CandidateBinary) in files
         && sha(files[Backup(token, CandidateBinary)]) == s.qualified.value.binarySha
      && Backup(token, CandidateManifest) in files
         && sha(files[Backup(token, CandidateManifest)]) == s.qualified.value.manifestSha
      && Names(files[Backup(token, CandidateManifest)], s.qualified.value.binarySha)
  }

  /** Everything `commit` establishes about the files and the running service. */
  ghost predicate Receipt(sha: Content -> Digest, token: string, q: Qualified, files: Files, ready: Document) {
    && Binary in files && sha(files[Binary]) == q.binarySha == ready.executable
    && q.target in files && sha(files[q.target]) == q.manifestSha
    && Env in files && Lookup(files, Env) == Lookup(files, Backup(token, OldEnv))
    && Lookup(files, Backup(token, Journal)) == Some(JournalFile(Committed, q, Some(ready)))
    && Lookup(files, Backup(token, VerifiedReady)).Some? && files[Backup(token, VerifiedReady)].ReadyFile?
    && Identity(files[Backup(token, VerifiedReady)].document) == Identity(ready)
  }

  /** The journal is the one of a commit whose restore then stopped after some of its writes. */
  ghost predicate LeftCommitted(sha: Content -> Digest, token: string, s: State, origin: Files, files: Files) {
    exists committed, ready, n: nat :: StoppedAfterCommit(sha, token, s, origin, committed, ready, n, files)
  }

  ghost predicate StoppedAfterCommit(sha: Content -> Digest, token: string, s: State, origin: Files, committed: Files,
                                     ready: Document, n: nat, files: Files) {
    && s.qualified.Some? && Recoverable(sha, token, s, origin, committed)
    && Receipt(sha, token, s.qualified.value, committed, ready)
    && n <= 3 && files == RestoreStop(token, s, committed, n)
  }

  lemma LeftIs(sha: Content -> Digest, token: string, s: State, origin: Files, committed: Files, files: Files)
    requires s.qualified.Some? && Recoverable(sha, token, s, origin, committed)
    requires exists ready :: Receipt(sha, token, s.qualified.value, committed, ready)
    requires Stopped(token, s, committed, files)
    ensures LeftCommitted(sha, token, s, origin, files)
  {
    hide Recoverable, Receipt, RestoreStop;
    var ready :| Receipt(sha, token, s.qualified.value, committed, ready);
    var n: nat :| n <= 3 && files == RestoreStop(token, s, committed, n);
    assert StoppedAfterCommit(sha, token, s, origin, committed, ready, n, files);
  }

  /** A file that had this digest before. */
  predicate HadDigest(sha: Content -> Digest, origin: Files, path: Path, digest: Digest) {
    path in origin && sha(origin[path]) == digest
  }

  /**
   After a restore that stopped, the journal still says committed, and what it says is still
   true exactly if each file already put back had the committed digest before.
   */
  lemma WhenTheJournalStillHolds(sha: Content -> Digest, token: string, s: State, origin: Files, committed: Files,
                                 ready: Document, n: nat, files: Files)
    requires StoppedAfterCommit(sha, token, s, origin, committed, ready, n, files)
    ensures SaysCommitted(token, files)
    ensures var q := s.qualified.value;
            Receipt(sha, token, q, files, ready) <==>
            && (PutBackBy(s, Binary, n) ==> HadDigest(sha, origin, Binary, q.binarySha))
            && (PutBackBy(s, q.target, n) ==> HadDigest(sha, origin, q.target, q.manifestSha))
  {
    var q := s.qualified.value;
    PartialRestore(token, s, origin, committed, n, Binary);
    PartialRestore(token, s, origin, committed, n, q.target);
    PartialRestore(token, s, origin, committed, n, Env);
    RestoreKeepsBackups(token, s, committed, n);
    hide RestoreStop, Confined, Vouched;
  }

  /** With an injective digest, the installed manifest itself vouches for the running binary. */
  lemma ReceiptBindsEverything(sha: Content -> Digest, token: string, s: State, files: Files, ready: Document)
    requires forall a, b :: sha(a) == sha(b) ==> a == b
    requires s.qualified.Some? && Vouched(sha, token, s, files) && Receipt(sha, token, s.qualified.value, files, ready)
    ensures Names(files[s.qualified.value.target], ready.executable)
    ensures files[Binary] == files[Backup(token, CandidateBinary)]
  {
    hide Names;
  }

  // ---------------------------------------------------------------- the phases

  lemma VouchedStays(sha: Content -> Digest, token: string, items: set<Item>, s: State, t: State, before: Files,
                     after: Files)
    requires Vouched(sha, token, s, before) && OnlyItems(token, items, before, after) && s.qualified == t.qualified
    requires CandidateBinary !in items && CandidateManifest !in items
    ensures Vouched(sha, token, t, after)
  {
  }

  lemma VouchedStaysReplaced(sha: Content -> Digest, token: string, s: State, before: Files, after: Files)
    requires Vouched(sha, token, s, before) && OnlyReplaced(token, s, before, after)
    requires s.qualified.Some? ==> !Own(token, s.qualified.value.target)
    ensures Vouched(sha, token, s, after)
  {
    assert Lookup(after, Backup(token, CandidateBinary)) == Lookup(before, Backup(token, CandidateBinary))
           || s.qualified.None?;
    assert Lookup(after, Backup(token, CandidateManifest)) == Lookup(before, Backup(token, CandidateManifest))
           || s.qualified.None?;
    hide Names, OnlyReplaced;
  }

  /** A complete restore from `files` puts `origin` back. */
  ghost predicate Recoverable(sha: Content -> Digest, token: string, s: State, origin: Files, files: Files) {
    Saved(token, s, origin, files) && Confined(token, s, origin, files) && Vouched(sha, token, s, files)
  }

  /** Nothing a phase after `prepare` does, completed or interrupted, spoils the rollback. */
  lemma RecoverableStays(sha: Content -> Digest, token: string, s: State, origin: Files, before: Files, after: Files)
    requires Recoverable(sha, token, s, origin, before) && OnlyReplaced(token, s, before, after)
    ensures Recoverable(sha, token, s, origin, after)
  {
    hide Confined, Vouched, OnlyReplaced, Copied;
    SavedStays(token, s, origin, before, after);
    ConfinedStays(token, s, origin, before, after);
    VouchedStaysReplaced(sha, token, s, before, after);
  }

  /** Every replaced file is, at any moment, as it was or whole the staged candidate that belongs there. */
  ghost predicate Whole(token: string, s: State, before: Files, after: Files) {
    forall path :: Replaced(s, path) ==>
      Lookup(after, path) == Lookup(before, path) || ItsCandidate(token, s, before, path, Lookup(after, path))
  }

  /** The staged candidate for a path; a manifest target that is also another replaced path has two. */
  predicate ItsCandidate(token: string, s: State, before: Files, path: Path, content: Option<Content>) {
    || (path.Binary? && content == Lookup(before, Backup(token, CandidateBinary)))
    || (path.Plist? && content == Lookup(before, Backup(token, CandidatePlist)))
    || (s.qualified.Some? && path == s.qualified.value.target
        && content == Lookup(before, Backup(token, CandidateManifest)))
  }

  /** One replacement by the path's own candidate, done or not, keeps every replaced file whole. */
  lemma StaysWhole(token: string, s: State, before: Files, a: Files, b: Files, path: Path, content: Option<Content>)
    requires Whole(token, s, before, a) && (b == a || b == Put(a, path, content))
    requires ItsCandidate(token, s, before, path, content)
    ensures Whole(token, s, before, b)
  {
  }

  lemma JournalIsWhole(token: string, s: State, before: Files, after: Files)
    requires OnlyItems(token, {Journal}, before, after) && (s.qualified.Some? ==> !Own(token, s.qualified.value.target))
    ensures Whole(token, s, before, after)
  {
  }

  lemma WholeAtFirst(token: string, s: State, files: Files)
    ensures Whole(token, s, files, files)
  {
  }

  /** Every replaced path holds its staged candidate, and the binary has the candidate's digest. */
  ghost predicate Installed(sha: Content -> Digest, token: string, s: State, files: Files) {
    && (forall path :: Replaced(s, path) ==>
          path in files && Lookup(files, path) == Lookup(files, Backup(token, CandidateFor(s, path))))
    && SameDigest(sha, Lookup(files, Binary), Lookup(files, Backup(token, CandidateBinary)))
  }

  lemma InstalledStays(sha: Content -> Digest, token: string, s: State, items: set<Item>, before: Files, after: Files)
    requires Installed(sha, token, s, before) && OnlyItems(token, items, before, after)
    requires s.qualified.Some? ==> !Own(token, s.qualified.value.target)
    requires items !! {CandidateBinary, CandidatePlist, CandidateManifest}
    ensures Installed(sha, token, s, after)
  {
    forall path | Replaced(s, path)
      ensures path in after && Lookup(after, path) == Lookup(after, Backup(token, CandidateFor(s, path))) {
      assert Lookup(after, path) == Lookup(before, path);
      assert Lookup(after, Backup(token, CandidateFor(s, path))) ==
               Lookup(before, Backup(token, CandidateFor(s, path)));
    }
    assert Lookup(after, Binary) == Lookup(before, Binary);
  }

  class Transaction {
    const sha: Content -> Digest
    const token: string
    const lock: string
    const requested: bool
    var files: Files
    var state: State

    constructor (sha: Content -> Digest, token: string, lock: string, requested: bool, files: Files)
      ensures this.sha == sha && this.token == token && this.lock == lock && this.requested == requested
      ensures this.files == files && state == FRESH
    {
      this.sha, this.token, this.lock, this.requested, this.files := sha, token, lock, requested, files;
      state := FRESH;
    }

    ghost function Here(): Setting {
      Setting(sha, token, lock, requested)
    }

    /** `PrivateTree.write`: an atomic replacement; `absent` refuses an existing file. */
    method Write(path: Path, content: Content, absent: bool, effect: Effect) returns (ok: bool)
      modifies this`files
      ensures Progress(files, ok) ==
                Step(old(files), if absent then Create(path, content) else Action.Replace(path, Some(content)), effect)
    {
      if absent && path in files { return false; }
      if effect.NotDone? { return false; }
      files := files[path := content];
      ok := effect.Done?;
    }

    /** `PrivateTree.remove`. */
    method Remove(path: Path, effect: Effect) returns (ok: bool)
      modifies this`files
      ensures Progress(files, ok) == Step(old(files), Action.Replace(path, None), effect)
    {
      if effect.NotDone? { return false; }
      files := files - {path};
      ok := effect.Done?;
    }

    /** `PrivateTree.read`, which may fail on an existing file too. */
    method Read(path: Path, effect: Effect) returns (content: Option<Content>)
      ensures content == if effect.Done? then Lookup(files, path) else None
    {
      return if effect.Done? && path in files then Some(files[path]) else None;
    }

    /** `read(…, optional=True)`: absence is a value, not a failure. */
    method ReadOptional(path: Path, effect: Effect) returns (ok: bool, content: Option<Content>)
      ensures ok == effect.Done? && content == Lookup(files, path)
    {
      ok := effect.Done?;
      content := Lookup(files, path);
    }

    method VerifyLock(effect: Effect) returns (ok: bool)
      ensures ok <==> Locked(files, lock) && effect.Done?
    {
      var owner := Read(LockOwner, effect);
      return owner == Some(Token(lock));
    }

    /** Stages one original, if there was one. */
    method Stage(item: Item, content: Option<Content>, effect: Effect) returns (ok: bool)
      modifies this`files
      ensures Progress(files, ok) == Step(old(files), Staged(Backup(token, item), content), effect)
      ensures OnlyItems(token, {item}, old(files), files)
      ensures Backup(token, item) in old(files) ==> files == old(files)
      ensures ok && content.Some? ==> Lookup(files, Backup(token, item)) == content
    {
      if content.None? { return true; }
      ok := Write(Backup(token, item), content.value, true, effect);
    }

    /** The lock, and the originals `prepare` reads and copies aside. */
    method StageOriginals(valid: bool, effects: seq<Effect>) returns (ok: bool, hadBinary: bool, hadPlist: bool)
      modifies this`files
      ensures Progress(files, ok) == Performed(old(files), CopyActions(token, lock, old(files), valid), effects)
      ensures ok ==> hadBinary == (Binary in old(files)) && hadPlist == (Plist in old(files))
      ensures OnlyItems(token, {OldBinary, OldPlist, OldEnv}, old(files), files)
      ensures ok ==> && Copied(old(files), Binary, hadBinary, files, Backup(token, OldBinary))
                     && Copied(old(files), Plist, hadPlist, files, Backup(token, OldPlist))
                     && Copied(old(files), Env, true, files, Backup(token, OldEnv))
    {
      ghost var a := CopyActions(token, lock, files, valid);
      hide From, Step, Staged;
      ok, hadBinary, hadPlist := false, false, false;
      OneStep(files, a, effects, 0);
      LookStep(files, Locked(files, lock), At(effects, 0));
      LookStep(files, Env in files && valid, At(effects, 1));
      LookStep(files, true, At(effects, 2));
      LookStep(files, true, At(effects, 3));
      var locked := VerifyLock(At(effects, 0));
      if !locked { return; }
      OneStep(files, a, effects, 1);
      var env := Read(Env, At(effects, 1));
      if env.None? || !valid { return; }
      OneStep(files, a, effects, 2);
      var readable, binary := ReadOptional(Binary, At(effects, 2));
      if !readable { return; }
      OneStep(files, a, effects, 3);
      var plist;
      readable, plist := ReadOptional(Plist, At(effects, 3));
      if !readable { return; }
      OneStep(files, a, effects, 4);
      var staged := Stage(OldBinary, binary, At(effects, 4));
      if !staged { return; }
      OneStep(files, a, effects, 5);
      staged := Stage(OldPlist, plist, At(effects, 5));
      if !staged { return; }
      OneStep(files, a, effects, 6);
      staged := Stage(OldEnv, env, At(effects, 6));
      NoMoreSteps(files, a, effects);
      return staged, binary.Some?, plist.Some?;
    }

    /** The configurator's validation of the staged manifest against the staged binary. */
    method Validate(c: Candidate) returns (ok: bool)
      ensures ok <==> Accepted(sha, c)
      ensures ok ==> Names(c.manifest, sha(c.binary))
    {
      if !c.manifest.ManifestFile? { return false; }
      var digest := Str(sha(c.binary).digits);
      var verdict := Qualification.ValidateManifest(c.manifest.json, c.identity, digest, c.cliSha, c.streaming);
      if verdict.Fail? { return false; }
      Qualification.AcceptedManifestBindsTheBinary(c.manifest.json, c.identity, digest, c.cliSha, c.streaming);
      return true;
    }

    /** The copies `qualified_prepare` makes: the manifest target's, the candidate and its manifest. */
    method StageManifests(target: Path, c: Candidate, effects: seq<Effect>) returns (ok: bool, had: bool)
      modifies this`files
      ensures var a := QualifiedActions(sha, token, old(files), target, c);
              From(old(files), a, effects, 0) == if ok then From(files, a, effects, 4) else Progress(files, false)
      ensures OnlyItems(token, {OldManifest, CandidateBinary, CandidateManifest}, old(files), files)
      ensures ok ==> && Copied(old(files), target, had, files, Backup(token, OldManifest))
                     && Lookup(files, Backup(token, CandidateBinary)) == Some(c.binary)
                     && Lookup(files, Backup(token, CandidateManifest)) == Some(c.manifest)
    {
      hide From, Accepted;
      ghost var a := QualifiedActions(sha, token, files, target, c);
      had := false;
      OneStep(files, a, effects, 0);
      var previous;
      ok, previous := ReadOptional(target, At(effects, 0));
      if !ok { return; }
      OneStep(files, a, effects, 1);
      ok := Stage(OldManifest, previous, At(effects, 1));
      if !ok { return; }
      OneStep(files, a, effects, 2);
      ok := Stage(CandidateBinary, Some(c.binary), At(effects, 2));
      if !ok { return; }
      OneStep(files, a, effects, 3);
      ok := Stage(CandidateManifest, Some(c.manifest), At(effects, 3));
      had := previous.Some?;
    }

    /** `qualified_prepare`: the manifest target, the candidate and the manifest that vouches for it. */
    method QualifiedPrepare(target: Path, c: Candidate, effects: seq<Effect>) returns (q: Option<Qualified>)
      modifies this`files
      ensures Progress(files, q.Some?) ==
                Performed(old(files), QualifiedActions(sha, token, old(files), target, c), effects)
      ensures q.Some? ==> q.value == QualifiedBy(sha, old(files), target, c)
      ensures OnlyItems(token, {OldManifest, CandidateBinary, CandidateManifest, Journal}, old(files), files)
      ensures q.Some? ==> Copied(old(files), target, q.value.hadManifest, files, Backup(token, OldManifest))
      ensures q.Some? ==> Vouched(sha, token, State(false, false, false, q), files)
      ensures SaysCommitted(token, files) ==> SaysCommitted(token, old(files))
    {
      hide Names, From, Accepted;
      ghost var a := QualifiedActions(sha, token, files, target, c);
      var staged, had := StageManifests(target, c, effects);
      OtherItemsKeepTheJournal(token, {OldManifest, CandidateBinary, CandidateManifest}, old(files), files);
      if !staged { return None; }
      OneStep(files, a, effects, 4);
      var valid := Validate(c);
      if !valid || !At(effects, 4).Done? { return None; }
      OneStep(files, a, effects, 5);
      var result := Qualified.Qualified(target, had, sha(c.binary), sha(c.manifest));
      var written := Overwrite(Journal, JournalFile(Prepared, result, None), At(effects, 5));
      if !written { return None; }
      NoMoreSteps(files, a, effects);
      return Some(result);
    }

    /** A write or removal that `publish` or `restore` makes at a replaced path. */
    method Replace(path: Path, content: Option<Content>, effect: Effect) returns (ok: bool)
      requires Replaced(state, path)
      modifies this`files
      ensures Progress(files, ok) == Step(old(files), Action.Replace(path, content), effect)
      ensures ok ==> files == Put(old(files), path, content)
      ensures !ok ==> files == old(files) || files == Put(old(files), path, content)
      ensures OnlyReplaced(token, state, old(files), files)
      ensures path != Backup(token, Journal) ==>
                Lookup(files, Backup(token, Journal)) == Lookup(old(files), Backup(token, Journal))
    {
      if content.Some? { ok := Write(path, content.value, false, effect); } else { ok := Remove(path, effect); }
    }

    /** `qualification_journal`. */
    method Journalise(phase: JournalPhase, readiness: Option<Document>, effect: Effect) returns (ok: bool)
      modifies this`files
      ensures Progress(files, ok) == Step(old(files), JournalEntry(token, state, phase, readiness), effect)
      ensures OnlyItems(token, {Journal}, old(files), files) && OnlyReplaced(token, state, old(files), files)
      ensures files != old(files) || (ok && state.qualified.Some?) ==>
                && state.qualified.Some?
                && Lookup(files, Backup(token, Journal)) == Some(JournalFile(phase, state.qualified.value, readiness))
    {
      if state.qualified.None? { return true; }
      ok := Overwrite(Journal, JournalFile(phase, state.qualified.value, readiness), effect);
    }

    /** The checks `publish` makes before it writes, and the candidates it then writes. */
    method CheckCandidates(cleanHead: bool, effect: Effect) returns (r: Option<(Content, Content)>)
      ensures r.Some? <==> Publishable(sha, token, state, files, cleanHead) && effect.Done?
      ensures r.Some? ==> Lookup(files, Backup(token, CandidateBinary)) == Some(r.value.0)
      ensures r.Some? ==> Lookup(files, Backup(token, CandidatePlist)) == Some(r.value.1)
    {
      var candidate := Read(Backup(token, CandidateBinary), effect);
      var plist := Read(Backup(token, CandidatePlist), effect);
      if candidate.None? || plist.None? { return None; }
      if state.qualified.Some? {
        var manifest := Read(Backup(token, CandidateManifest), effect);
        if manifest.None? || !cleanHead { return None; }
        if sha(candidate.value) != state.qualified.value.binarySha
           || sha(manifest.value) != state.qualified.value.manifestSha {
          return None;
        }
        var env := Read(Env, effect);
        var copy := Read(Backup(token, OldEnv), effect);
        if env.None? || env != copy { return None; }
      }
      return Some((candidate.value, plist.value));
    }

    /** The writes of `publish`: binary, plist and, if qualified, the manifest, read back. */
    method WriteCandidates(binary: Content, plist: Content, cleanHead: bool, effects: seq<Effect>, ghost before: Files)
      returns (ok: bool)
      requires state.qualified.Some? ==> !Own(token, state.qualified.value.target)
      requires OnlyReplaced(token, state, before, files) && Whole(token, state, before, files)
      requires Publishable(sha, token, state, before, cleanHead)
      requires Lookup(before, Backup(token, CandidateBinary)) == Some(binary)
               && Lookup(before, Backup(token, CandidatePlist)) == Some(plist)
      modifies this`files
      ensures var a := PublishActions(sha, token, lock, state, before, cleanHead);
              From(old(files), a, effects, 3) == if ok then From(files, a, effects, |a| - 1) else Progress(files, false)
      ensures OnlyReplaced(token, state, before, files) && Whole(token, state, before, files)
      ensures Lookup(files, Backup(token, Journal)) == Lookup(old(files), Backup(token, Journal))
      ensures ok ==> forall path :: Replaced(state, path) ==>
                       Lookup(files, path) == Lookup(before, Backup(token, CandidateFor(state, path)))
    {
      hide Lookup, OnlyReplaced, Put, Whole, From, Publishable, Step, PublishActions;
      PublishList(sha, token, lock, state, before, cleanHead);
      ghost var acts := PublishActions(sha, token, lock, state, before, cleanHead);
      ghost var a := files;
      OneStep(files, acts, effects, 3);
      ok := Replace(Binary, Some(binary), At(effects, 3));
      OnlyReplacedThen(token, state, before, a, files);
      StaysWhole(token, state, before, a, files, Binary, Some(binary));
      if !ok { return; }
      PutElsewhere(a, Binary, Some(binary));
      ghost var b := files;
      OneStep(files, acts, effects, 4);
      ok := Replace(Plist, Some(plist), At(effects, 4));
      OnlyReplacedThen(token, state, before, b, files);
      StaysWhole(token, state, before, b, files, Plist, Some(plist));
      PutElsewhere(b, Plist, Some(plist));
      if !ok || state.qualified.None? { return; }
      ghost var c := files;
      ok := WriteManifest(cleanHead, effects, before);
      PutElsewhere(c, state.qualified.value.target, Lookup(before, Backup(token, CandidateManifest)));
    }

    /** The manifest in its place, read back. */
    method WriteManifest(cleanHead: bool, effects: seq<Effect>, ghost before: Files) returns (ok: bool)
      requires state.qualified.Some? && !Own(token, state.qualified.value.target)
      requires OnlyReplaced(token, state, before, files) && Whole(token, state, before, files)
      requires Publishable(sha, token, state, before, cleanHead)
      modifies this`files
      ensures var a := PublishActions(sha, token, lock, state, before, cleanHead);
              From(old(files), a, effects, 5) == if ok then From(files, a, effects, 8) else Progress(files, false)
      ensures OnlyReplaced(token, state, before, files) && Whole(token, state, before, files)
      ensures Lookup(files, Backup(token, Journal)) == Lookup(old(files), Backup(token, Journal))
      ensures ok ==> files == Put(old(files), state.qualified.value.target,
                                  Lookup(before, Backup(token, CandidateManifest)))
    {
      hide Lookup, OnlyReplaced, Put, Whole, From, Publishable, Step, PublishActions;
      PublishList(sha, token, lock, state, before, cleanHead);
      ghost var acts := PublishActions(sha, token, lock, state, before, cleanHead);
      ghost var c := files;
      OneStep(files, acts, effects, 5);
      LookStep(files, true, At(effects, 5));
      var manifest := Read(Backup(token, CandidateManifest), At(effects, 5));
      BackupUntouched(token, state, before, c, CandidateManifest);
      StagedManifest(sha, token, state, before, cleanHead);
      if manifest.None? { return false; }
      OneStep(files, acts, effects, 6);
      ok := Replace(state.qualified.value.target, manifest, At(effects, 6));
      OnlyReplacedThen(token, state, before, c, files);
      StaysWhole(token, state, before, c, files, state.qualified.value.target, manifest);
      PutElsewhere(c, state.qualified.value.target, manifest);
      if !ok { return; }
      OneStep(files, acts, effects, 7);
      LookStep(files, true, At(effects, 7));
      var written := Read(state.qualified.value.target, At(effects, 7));
      ok := written == manifest;
    }

    /** The installed binary, read back. */
    method ReadBack(binary: Content, cleanHead: bool, effects: seq<Effect>, ghost before: Files) returns (ok: bool)
      requires state.qualified.Some? ==> !Own(token, state.qualified.value.target)
      requires Publishable(sha, token, state, before, cleanHead) && OnlyReplaced(token, state, before, files)
      requires Lookup(before, Backup(token, CandidateBinary)) == Some(binary)
      requires forall path :: Replaced(state, path) ==>
                 Lookup(files, path) == Lookup(before, Backup(token, CandidateFor(state, path)))
      ensures var a := PublishActions(sha, token, lock, state, before, cleanHead);
              From(files, a, effects, |a| - 1) == Progress(files, ok)
      ensures ok ==> Installed(sha, token, state, files)
    {
      hide OnlyReplaced, From, Publishable, Installed, Step, PublishActions;
      PublishList(sha, token, lock, state, before, cleanHead);
      ghost var acts := PublishActions(sha, token, lock, state, before, cleanHead);
      OneStep(files, acts, effects, |acts| - 1);
      NoMoreSteps(files, acts, effects);
      LookStep(files, SameDigest(sha, Lookup(before, Backup(token, CandidateFor(state, Binary))),
                                 Lookup(before, Backup(token, CandidateBinary))), At(effects, |acts| - 1));
      CandidatesStand(sha, token, state, before, files, cleanHead);
      var installed := Read(Binary, At(effects, if state.qualified.Some? then 8 else 5));
      ok := installed.Some? && sha(installed.value) == sha(binary);
      if ok { InstalledIs(sha, token, state, before, files, cleanHead); }
    }

    /** The `publish` phase. */
    method Publish(w: World) returns (ok: bool)
      requires state.qualified.Some? ==> !Own(token, state.qualified.value.target)
      modifies this`files
      ensures Progress(files, ok) == InstallPhases.Publish(Here(), state, old(files), w)
      ensures OnlyReplaced(token, state, old(files), files) && Whole(token, state, old(files), files)
      ensures ok ==> state.prepared && Installed(sha, token, state, files)
      ensures SaysCommitted(token, files) ==> SaysCommitted(token, old(files))
    {
      hide Lookup, OnlyReplaced, OnlyItems, Whole, From, Publishable, Installed, Step, PublishActions;
      PublishList(sha, token, lock, state, files, w.cleanHead);
      ghost var before, effects := files, w.effects.publishing;
      ghost var acts := PublishActions(sha, token, lock, state, files, w.cleanHead);
      NothingReplaced(token, state, before);
      WholeAtFirst(token, state, before);
      OneStep(files, acts, effects, 0);
      LookStep(files, Locked(files, lock) && state.prepared, At(effects, 0));
      ok := VerifyLock(At(w.effects.publishing, 0));
      if !ok || !state.prepared { return false; }
      OneStep(files, acts, effects, 1);
      LookStep(files, Publishable(sha, token, state, files, w.cleanHead), At(effects, 1));
      var candidates := CheckCandidates(w.cleanHead, At(w.effects.publishing, 1));
      if candidates.None? { return false; }
      OneStep(files, acts, effects, 2);
      ok := Journalise(Publishing, None, At(w.effects.publishing, 2));
      JournalIsWhole(token, state, before, files);
      if !ok { return; }
      ok := WriteCandidates(candidates.value.0, candidates.value.1, w.cleanHead, w.effects.publishing, before);
      if !ok { return; }
      ok := ReadBack(candidates.value.0, w.cleanHead, w.effects.publishing, before);
    }

    /** The `restore` phase: complete, or stopped somewhere among its writes. */
    method Restore(w: World) returns (ok: bool)
      requires state.qualified.Some? ==> !Own(token, state.qualified.value.target)
      modifies this`files
      ensures Progress(files, ok) == InstallPhases.Restore(Here(), state, old(files), w)
      ensures OnlyReplaced(token, state, old(files), files)
      ensures ok ==> OnlyItems(token, {Journal}, RestoredFiles(token, state, old(files)), files)
      ensures ok && state.qualified.Some? ==> SaysRestored(token, state, files)
      ensures Stopped(token, state, old(files), files) || SaysRestored(token, state, files)
    {
      hide OnlyReplaced, OnlyItems, RestoreStop, PutBack, Lookup, From, Step, RestoreActions, PutBackActions;
      RestoreList(token, lock, state, files);
      ghost var before, effects := files, w.effects.restoring;
      ghost var acts := RestoreActions(token, lock, state, files);
      Stops(token, state, before);
      NothingReplaced(token, state, before);
      OneStep(files, acts, effects, 0);
      LookStep(files, Locked(files, lock), At(effects, 0));
      ok := VerifyLock(At(w.effects.restoring, 0));
      if !ok { return; }
      ok := RestoreOne(Binary, OldBinary, state.hadBinary, w.effects.restoring, 1, before, acts);
      if !ok { return; }
      ghost var a := files;
      ok := RestoreOne(Plist, OldPlist, state.hadPlist, w.effects.restoring, 3, before, acts);
      OnlyReplacedThen(token, state, before, a, files);
      if !ok { return; }
      ghost var b := files;
      if state.qualified.None? {
        NoMoreSteps(files, acts, effects);
        OnlyItemsAtFirst(token, {Journal}, files);
        return;
      }
      ok := RestoreOne(state.qualified.value.target, OldManifest, state.qualified.value.hadManifest,
                       w.effects.restoring, 5, before, acts);
      OnlyReplacedThen(token, state, before, b, files);
      if !ok { return; }
      ghost var c := files;
      OneStep(files, acts, effects, 7);
      ok := Journalise(Restored, None, At(w.effects.restoring, 7));
      NoMoreSteps(files, acts, effects);
      OnlyReplacedThen(token, state, before, c, files);
    }

    method RestoreOne(path: Path, item: Item, had: bool, effects: seq<Effect>, i: nat, ghost before: Files,
                      ghost acts: seq<Action>) returns (ok: bool)
      requires Replaced(state, path) && !IsJournal(item) && OnlyReplaced(token, state, before, files)
      requires state.qualified.Some? ==> !Own(token, state.qualified.value.target)
      requires i + 2 <= |acts| && acts[i..i + 2] == PutBackActions(token, before, path, item, had)
      modifies this`files
      ensures From(old(files), acts, effects, i) == if ok then From(files, acts, effects, i + 2)
                                                    else Progress(files, false)
      ensures OnlyReplaced(token, state, old(files), files)
      ensures files == old(files) || files == PutBack(token, old(files), path, item, had)
      ensures ok ==> files == PutBack(token, old(files), path, item, had)
    {
      hide From, OnlyReplaced;
      assert acts[i] == acts[i..i + 2][0] && acts[i + 1] == acts[i..i + 2][1];
      OneStep(files, acts, effects, i);
      BackupUntouched(token, state, before, files, item);
      NothingReplaced(token, state, files);
      var content: Option<Content> := None;
      if had {
        content := Read(Backup(token, item), At(effects, i));
        if content.None? { return false; }
      }
      OneStep(files, acts, effects, i + 1);
      ok := Replace(path, content, At(effects, i + 1));
    }

    /** The `start` phase: a run that `wait_ready` accepted for the installed binary. */
    method Start(ready: Document, effects: seq<Effect>) returns (ok: bool)
      requires state.qualified.Some? ==> !Own(token, state.qualified.value.target)
      modifies this`files
      ensures Progress(files, ok) == InstallPhases.Start(Here(), state, old(files), ready, effects)
      ensures OnlyReplaced(token, state, old(files), files)
      ensures OnlyItems(token, {VerifiedReady}, old(files), files)
      ensures ok && state.qualified.Some? ==>
                && Lookup(files, Backup(token, VerifiedReady)) == Some(ReadyFile(ready))
                && Binary in files && ready.executable == sha(files[Binary])
    {
      hide From;
      ghost var acts := StartActions(sha, token, lock, state, files, ready);
      OneStep(files, acts, effects, 0);
      ok := VerifyLock(At(effects, 0));
      if !ok { return; }
      OneStep(files, acts, effects, 1);
      var plist := Read(Plist, At(effects, 1));
      var binary := Read(Binary, At(effects, 1));
      if plist.None? || binary.None? || ready.executable != sha(binary.value) { return false; }
      OneStep(files, acts, effects, 2);
      if state.qualified.Some? { ok := Overwrite(VerifiedReady, ReadyFile(ready), At(effects, 2)); }
      NoMoreSteps(files, acts, effects);
      LookupIs(files, Binary);
      LookupIs(old(files), Binary);
    }

    /** The `commit` phase. */
    method Commit(w: World) returns (ok: bool)
      requires state.qualified.Some? ==> !Own(token, state.qualified.value.target)
      modifies this`files
      ensures Progress(files, ok) == InstallPhases.Commit(Here(), state, old(files), w)
      ensures OnlyReplaced(token, state, old(files), files) && OnlyItems(token, {Journal}, old(files), files)
      ensures files != old(files) || (ok && state.qualified.Some?) ==>
                state.qualified.Some? && exists ready :: Receipt(sha, token, state.qualified.value, files, ready)
    {
      hide OnlyReplaced, OnlyItems, From;
      ghost var acts, effects := CommitActions(sha, token, lock, state, files, w.sample), w.effects.committing;
      NothingReplaced(token, state, files);
      OnlyItemsAtFirst(token, {Journal}, files);
      OneStep(files, acts, effects, 0);
      NoMoreSteps(files, acts, effects);
      ok := VerifyLock(At(w.effects.committing, 0));
      if !ok || state.qualified.None? { return; }
      OneStep(files, acts, effects, 1);
      var checked := CheckReceipt(w.sample, At(w.effects.committing, 1));
      if !checked { return false; }
      ghost var before := files;
      OneStep(files, acts, effects, 2);
      ok := Journalise(Committed, w.sample.document, At(w.effects.committing, 2));
      NoMoreSteps(files, acts, effects);
      if files != before || ok {
        ReceiptStands(sha, token, state.qualified.value, before, files, w.sample);
      }
    }

    /** The checks of `commit`. */
    method CheckReceipt(sample: Sample, effect: Effect) returns (ok: bool)
      requires state.qualified.Some?
      ensures ok <==> Committable(sha, token, state.qualified.value, files, sample) && effect.Done?
    {
      var q := state.qualified.value;
      var verified := Read(Backup(token, VerifiedReady), effect);
      if sample.document.None? || verified.None? || !verified.value.ReadyFile? { return false; }
      var identity := ValidateReady(sample.document.value, verified.value.document.publishedMs, sample.now, sample.pid,
                                    q.binarySha, sample.alive);
      if identity.Failure? || identity.value != Identity(verified.value.document) { return false; }
      var binary := Read(Binary, effect);
      if binary.None? || sha(binary.value) != q.binarySha { return false; }
      var manifest := Read(q.target, effect);
      if manifest.None? || sha(manifest.value) != q.manifestSha { return false; }
      var env := Read(Env, effect);
      var copy := Read(Backup(token, OldEnv), effect);
      return env.Some? && env == copy;
    }

    /** `cleanup` after a failure past the first stop: stop, restore, and start what ran before. */
    method RollBack(w: World, ghost origin: Files) returns (end: Ending)
      requires Recoverable(sha, token, state, origin, files)
      modifies this`files
      ensures Outcome(files, end) == InstallPhases.RollBack(Here(), state, old(files), w)
      ensures end.RolledBack? || end.Retained?
      ensures end.RolledBack? ==> SameOutside(token, origin, files)
      ensures Recoverable(sha, token, state, origin, files)
      ensures SaysCommitted(token, files) ==> SaysCommitted(token, old(files))
      ensures state.qualified.Some? && SaysCommitted(token, files) ==>
                end.Retained? && Stopped(token, state, old(files), files)
    {
      hide Confined, Vouched, OnlyReplaced, SameOutside, OnlyItems, Copied, RestoredFiles, SaysCommitted, Stopped,
           SaysRestored, InstallPhases.Restore, InstallPhases.Start;
      ghost var before := files;
      Stops(token, state, before);
      if !w.rollsBack { return Retained; }
      var ok := Restore(w);
      JournalAfterRestore(token, state, before, files);
      RecoverableStays(sha, token, state, origin, before, files);
      if !ok { return Retained; }
      RollbackIsExact(token, state, origin, before);
      OnlyItemsIsOutside(token, {Journal}, RestoredFiles(token, state, before), files);
      OutsideThen(token, origin, RestoredFiles(token, state, before), files);
      if state.hadPlist {
        ghost var restored := files;
        ok := Start(w.priorReady, w.effects.restarting);
        RecoverableStays(sha, token, state, origin, restored, files);
        OnlyItemsIsOutside(token, {VerifiedReady}, restored, files);
        OtherItemsKeepTheJournal(token, {VerifiedReady}, restored, files);
        OutsideThen(token, origin, restored, files);
        if !ok { return Retained; }
      }
      return RolledBack;
    }

    /**
     The installer's run under the lock. Any phase may fail at any of its steps, and an
     interrupt or a cleanup that stays incomplete may follow any phase.
     */
    method Install(target: Path, w: World) returns (end: Ending)
      requires !Own(token, target) && state == FRESH
      modifies this
      ensures Run(files, state, end) == InstallPhases.Install(Here(), old(files), target, w)
      ensures end.Refused? || end.RolledBack? ==> SameOutside(token, old(files), files)
      ensures end.Retained? ==>
                SameOutside(token, old(files), files) || Recoverable(sha, token, state, old(files), files)
      ensures target != Env ==> Lookup(files, Env) == Lookup(old(files), Env)
      ensures end.Ready? ==>
                Confined(token, state, old(files), files) && Vouched(sha, token, state, files)
                && Installed(sha, token, state, files)
      ensures SaysCommitted(token, files) && !SaysCommitted(token, old(files)) ==>
                && requested && (end.Ready? || end.Retained?)
                && (end.Retained? ==> LeftCommitted(sha, token, state, old(files), files))
      ensures end.Ready? && requested ==>
                state.qualified.Some? && exists ready :: Receipt(sha, token, state.qualified.value, files, ready)
    {
      hide Saved, Confined, Vouched, OnlyReplaced, SameOutside, Receipt, Whole, Installed, OnlyItems;
      hide SaysCommitted, LeftCommitted, Lookup, InstallPhases.Prepare, InstallPhases.Proceed;
      ghost var origin := files;
      var ok := Prepare(target, w);
      OutsideKeepsEnv(token, origin, files);
      if !ok || !w.stops { return if w.incomplete then Retained else Refused; }
      PreparedIsRecoverable(sha, token, state, origin, files);
      end := Proceed(w, origin);
      ConfinedKeepsEnv(token, state, origin, files);
    }

    /** The run from the first stop on: every failure and interrupt now leads to the rollback. */
    method Proceed(w: World, ghost origin: Files) returns (end: Ending)
      requires Recoverable(sha, token, state, origin, files)
               && (state.qualified.Some? ==> !Own(token, state.qualified.value.target))
      modifies this`files
      ensures Outcome(files, end) == InstallPhases.Proceed(Here(), state, old(files), w)
      ensures !end.Refused? && Recoverable(sha, token, state, origin, files)
      ensures end.RolledBack? ==> SameOutside(token, origin, files)
      ensures end.Ready? ==> Installed(sha, token, state, files)
      ensures end.Ready? && state.qualified.Some? ==>
                exists ready :: Receipt(sha, token, state.qualified.value, files, ready)
      ensures SaysCommitted(token, files) && !SaysCommitted(token, old(files)) ==>
                && state.qualified.Some? && (end.Ready? || end.Retained?)
                && (end.Retained? ==> LeftCommitted(sha, token, state, origin, files))
    {
      hide Saved, Confined, Vouched, OnlyReplaced, SameOutside, Receipt, Whole, Installed, OnlyItems;
      hide SaysCommitted, Stopped, LeftCommitted, Lookup, InstallPhases.Publish, InstallPhases.Start,
           InstallPhases.Commit;
      hide InstallPhases.RollBack;
      ghost var a := files;
      var ok := Publish(w);
      RecoverableStays(sha, token, state, origin, a, files);
      if ok && !w.interruptedPublish {
        ghost var b := files;
        ok := Start(w.ready, w.effects.starting);
        RecoverableStays(sha, token, state, origin, b, files);
        InstalledStays(sha, token, state, {VerifiedReady}, b, files);
        OtherItemsKeepTheJournal(token, {VerifiedReady}, b, files);
        if ok && !w.interruptedStart {
          ghost var c := files;
          ok := Commit(w);
          RecoverableStays(sha, token, state, origin, c, files);
          InstalledStays(sha, token, state, {Journal}, c, files);
          if ok && !w.interruptedCommit { return Ready; }
        }
      }
      ghost var d := files;
      end := RollBack(w, origin);
      if SaysCommitted(token, files) && !SaysCommitted(token, a) { LeftIs(sha, token, state, origin, d, files); }
    }

    /** The `prepare` phase; a failed phase leaves the shell's state as it was. */
    method Prepare(target: Path, w: World) returns (ok: bool)
      requires !Own(token, target)
      modifies this
      ensures old(state) == FRESH ==>
                Preparation(Progress(files, ok), state) == InstallPhases.Prepare(Here(), old(files), target, w)
      ensures SameOutside(token, old(files), files)
      ensures ok ==>
                && state.prepared && (state.qualified.Some? <==> requested)
                && (requested ==> state.qualified.value.target == target)
      ensures ok ==> Saved(token, state, old(files), files) && Vouched(sha, token, state, files)
      ensures !ok ==> state == old(state)
      ensures SaysCommitted(token, files) ==> SaysCommitted(token, old(files))
    {
      hide Lookup, Copied, SameOutside, OnlyItems, Vouched, SaysCommitted, Performed, CopyActions, CandidateActions;
      hide InstallPhases.Prepare, QualifiedBy;
      ghost var origin := files;
      Unchanged(token, origin);
      var hadBinary, hadPlist;
      ok, hadBinary, hadPlist := StageOriginals(w.validEnvironment, w.effects.copying);
      ghost var first := files;
      ghost var copied := Progress(files, ok);
      if !ok { PreparedTo(Here(), origin, target, w, copied, copied, copied); }
      OnlyItemsIsOutside(token, {OldBinary, OldPlist, OldEnv}, origin, files);
      OtherItemsKeepTheJournal(token, {OldBinary, OldPlist, OldEnv}, origin, files);
      if !ok { return; }
      var q;
      ok, q := StageCandidate(target, w.candidate, w.effects.staging);
      ghost var second := files;
      ghost var items := {OldManifest, CandidateBinary, CandidateManifest, Journal};
      OnlyItemsIsOutside(token, items, first, second);
      OutsideThen(token, origin, first, second);
      ghost var staged := Progress(files, ok);
      if !ok {
        PreparedTo(Here(), origin, target, w, copied, staged, staged);
        return;
      }
      ok := StagePlist(w.candidate.plist, w.effects.finishing);
      PreparedTo(Here(), origin, target, w, copied, staged, Progress(files, ok));
      OnlyItemsIsOutside(token, {CandidatePlist}, second, files);
      OtherItemsKeepTheJournal(token, {CandidatePlist}, second, files);
      OutsideThen(token, origin, second, files);
      if !ok || !w.fits { return false; }
      state := State(true, hadBinary, hadPlist, q);
      OriginalsStay(token, items, origin, hadBinary, hadPlist, first, second);
      OriginalsStay(token, {CandidatePlist}, origin, hadBinary, hadPlist, second, files);
      if requested {
        CopyStays(token, {CandidatePlist}, first, target, q.value.hadManifest, second, files, OldManifest);
        CopiedFromSame(token, origin, first, target, q.value.hadManifest, files, Backup(token, OldManifest));
      }
      VouchedStays(sha, token, {CandidatePlist}, State(false, false, false, q), state, second, files);
    }

    method StagePlist(plist: Content, effects: seq<Effect>) returns (ok: bool)
      modifies this`files
      ensures Progress(files, ok) == Performed(old(files), [Create(Backup(token, CandidatePlist), plist)], effects)
      ensures OnlyItems(token, {CandidatePlist}, old(files), files)
    {
      hide From;
      ghost var a := [Create(Backup(token, CandidatePlist), plist)];
      OneStep(files, a, effects, 0);
      ok := Stage(CandidatePlist, Some(plist), At(effects, 0));
      NoMoreSteps(files, a, effects);
    }

    /** The staged candidate: qualified, or the checkout's own build. */
    method StageCandidate(target: Path, c: Candidate, effects: seq<Effect>) returns (ok: bool, q: Option<Qualified>)
      modifies this`files
      ensures Progress(files, ok) == Performed(old(files), CandidateActions(Here(), old(files), target, c), effects)
      ensures ok ==> q == (if requested then Some(QualifiedBy(sha, old(files), target, c)) else None)
      ensures ok && requested ==> q.value.target == target
      ensures OnlyItems(token, {OldManifest, CandidateBinary, CandidateManifest, Journal}, old(files), files)
      ensures SaysCommitted(token, files) ==> SaysCommitted(token, old(files))
      ensures ok ==> Vouched(sha, token, State(false, false, false, q), files)
      ensures ok && requested ==> Copied(old(files), target, q.value.hadManifest, files, Backup(token, OldManifest))
    {
      hide Lookup, Copied, Vouched, SaysCommitted, From, QualifiedActions;
      if requested {
        q := QualifiedPrepare(target, c, effects);
        ok := q.Some?;
      } else {
        q := None;
        ghost var a := CandidateActions(Here(), files, target, c);
        OneStep(files, a, effects, 0);
        ok := Stage(CandidateBinary, Some(c.binary), At(effects, 0));
        NoMoreSteps(files, a, effects);
        OtherItemsKeepTheJournal(token, {CandidateBinary}, old(files), files);
        NothingToVouch(sha, token, State(false, false, false, q), files);
      }
    }

    /** Replaces a file of the backup directory. */
    method Overwrite(item: Item, content: Content, effect: Effect) returns (ok: bool)
      modifies this`files
      ensures Progress(files, ok) == Step(old(files), Action.Replace(Backup(token, item), Some(content)), effect)
      ensures OnlyItems(token, {item}, old(files), files)
      ensures ok || files != old(files) ==> Lookup(files, Backup(token, item)) == Some(content)
    {
      ok := Write(Backup(token, item), content, false, effect);
    }
  }

  lemma LookStep(files: Files, holds: bool, effect: Effect)
    ensures Step(files, Look(holds), effect) == Progress(files, holds && effect.Done?)
  {
  }

  /** The steps of `restore`, one by one. */
  lemma RestoreList(token: string, lock: string, s: State, files: Files)
    ensures var a := RestoreActions(token, lock, s, files);
            && |a| == (if s.qualified.Some? then 8 else 5) && a[0] == Look(Locked(files, lock))
            && a[1..3] == PutBackActions(token, files, Binary, OldBinary, s.hadBinary)
            && a[3..5] == PutBackActions(token, files, Plist, OldPlist, s.hadPlist)
            && (s.qualified.Some? ==>
                  && a[5..7] == PutBackActions(token, files, s.qualified.value.target, OldManifest,
                                               s.qualified.value.hadManifest)
                  && a[7] == JournalEntry(token, s, Restored, None))
  {
  }

  /** `prepare` step by step: where it stops, and what it makes if it does not. */
  lemma PreparedTo(e: Setting, files: Files, target: Path, w: World, copied: Progress, staged: Progress,
                   finished: Progress)
    requires copied == Performed(files, CopyActions(e.token, e.lock, files, w.validEnvironment), w.effects.copying)
    requires copied.ok ==>
               staged == Performed(copied.files, CandidateActions(e, copied.files, target, w.candidate),
                                   w.effects.staging)
    requires copied.ok && staged.ok ==>
               finished == Performed(staged.files, [Create(Backup(e.token, CandidatePlist), w.candidate.plist)],
                                     w.effects.finishing)
    ensures var p := InstallPhases.Prepare(e, files, target, w);
            && (!copied.ok ==> p == Preparation(copied, FRESH))
            && (copied.ok && !staged.ok ==> p == Preparation(staged, FRESH))
            && (copied.ok && staged.ok && (!finished.ok || !w.fits) ==>
                  p == Preparation(Progress(finished.files, false), FRESH))
            && (copied.ok && staged.ok && finished.ok && w.fits ==>
                  var q := if e.requested then Some(QualifiedBy(e.sha, copied.files, target, w.candidate)) else None;
                  p == Preparation(finished, State(true, Binary in files, Plist in files, q)))
  {
    hide Performed, CopyActions, CandidateActions;
  }

  /** What `publish` checked about the staged manifest. */
  lemma StagedManifest(sha: Content -> Digest, token: string, s: State, files: Files, cleanHead: bool)
    requires Publishable(sha, token, s, files, cleanHead) && s.qualified.Some?
    ensures Lookup(files, Backup(token, CandidateManifest)).Some?
  {
  }

  /** The staged candidates are still there when `publish` has written. */
  lemma CandidatesStand(sha: Content -> Digest, token: string, s: State, before: Files, files: Files, cleanHead: bool)
    requires Publishable(sha, token, s, before, cleanHead) && OnlyReplaced(token, s, before, files)
    requires s.qualified.Some? ==> !Own(token, s.qualified.value.target)
    requires forall path :: Replaced(s, path) ==>
               Lookup(files, path) == Lookup(before, Backup(token, CandidateFor(s, path)))
    ensures Lookup(files, Binary) == Lookup(before, Backup(token, CandidateFor(s, Binary))) != None
    ensures forall path :: Replaced(s, path) ==>
              path in files && Lookup(files, path) == Lookup(files, Backup(token, CandidateFor(s, path)))
    ensures Lookup(files, Backup(token, CandidateBinary)) == Lookup(before, Backup(token, CandidateBinary))
  {
    assert Replaced(s, Binary);
    forall path | Replaced(s, path)
      ensures path in files && Lookup(files, path) == Lookup(files, Backup(token, CandidateFor(s, path))) {
      BackupUntouched(token, s, before, files, CandidateFor(s, path));
    }
    BackupUntouched(token, s, before, files, CandidateBinary);
  }

  lemma InstalledIs(sha: Content -> Digest, token: string, s: State, before: Files, files: Files, cleanHead: bool)
    requires Publishable(sha, token, s, before, cleanHead) && OnlyReplaced(token, s, before, files)
    requires s.qualified.Some? ==> !Own(token, s.qualified.value.target)
    requires forall path :: Replaced(s, path) ==>
               Lookup(files, path) == Lookup(before, Backup(token, CandidateFor(s, path)))
    requires SameDigest(sha, Lookup(files, Binary), Lookup(before, Backup(token, CandidateBinary)))
    ensures Installed(sha, token, s, files)
  {
    hide OnlyReplaced, Publishable;
    CandidatesStand(sha, token, s, before, files, cleanHead);
  }

  lemma LookupIs(files: Files, path: Path)
    ensures Lookup(files, path).Some? <==> path in files
    ensures path in files ==> Lookup(files, path) == Some(files[path])
  {
  }

  lemma Unchanged(token: string, files: Files)
    ensures SameOutside(token, files, files)
  {
  }

  lemma NothingToVouch(sha: Content -> Digest, token: string, s: State, files: Files)
    requires s.qualified.None?
    ensures Vouched(sha, token, s, files)
  {
  }

  lemma NothingReplaced(token: string, s: State, files: Files)
    ensures OnlyReplaced(token, s, files, files)
  {
  }

  lemma BackupUntouched(token: string, s: State, before: Files, after: Files, item: Item)
    requires OnlyReplaced(token, s, before, after) && !IsJournal(item)
    requires s.qualified.Some? ==> !Own(token, s.qualified.value.target)
    ensures Lookup(after, Backup(token, item)) == Lookup(before, Backup(token, item))
  {
  }

  /** The checks of `commit` and its journal entry make the receipt. */
  lemma ReceiptStands(sha: Content -> Digest, token: string, q: Qualified, before: Files, after: Files, sample: Sample)
    requires OnlyItems(token, {Journal}, before, after) && !Own(token, q.target)
    requires Committable(sha, token, q, before, sample)
    requires Lookup(after, Backup(token, Journal)) == Some(JournalFile(Committed, q, sample.document))
    ensures Receipt(sha, token, q, after, sample.document.value)
  {
    OnlyItemsKeeps(token, {Journal}, before, after, Binary);
    OnlyItemsKeeps(token, {Journal}, before, after, q.target);
    OnlyItemsKeeps(token, {Journal}, before, after, Env);
    OnlyItemsKeeps(token, {Journal}, before, after, Backup(token, OldEnv));
    OnlyItemsKeeps(token, {Journal}, before, after, Backup(token, VerifiedReady));
    hide OnlyItems;
  }

  lemma PreparedIsRecoverable(sha: Content -> Digest, token: string, s: State, origin: Files, files: Files)
    requires Saved(token, s, origin, files) && Vouched(sha, token, s, files) && SameOutside(token, origin, files)
    ensures Recoverable(sha, token, s, origin, files) && (s.qualified.Some? ==> !Own(token, s.qualified.value.target))
  {
  }

  lemma OutsideKeepsEnv(token: string, origin: Files, files: Files)
    requires SameOutside(token, origin, files)
    ensures Lookup(files, Env) == Lookup(origin, Env)
  {
  }

  lemma ConfinedKeepsEnv(token: string, s: State, origin: Files, files: Files)
    requires Confined(token, s, origin, files)
    ensures (s.qualified.Some? ==> s.qualified.value.target != Env) ==> Lookup(files, Env) == Lookup(origin, Env)
  {
  }

  lemma OnlyItemsAtFirst(token: string, items: set<Item>, files: Files)
    ensures OnlyItems(token, items, files, files)
  {
  }
}
