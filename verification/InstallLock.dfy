/**
 One lock directory, many programs: the installer's `acquire`, `verify_lock` and `release`
 (deploy/service_transaction.py) and the configurators' `InstallLock`
 (deploy/configure-mlx-primary.py), any number of them stepping concurrently.
 */
module InstallLock {
  import opened Wrappers

  datatype Program = Installer | Configurator

  datatype End = Refused | Released | Stranded | Killed

  datatype Pc =
    | Starting
    | Masked                  // configurator: signals blocked, no directory yet
    | Made                    // the directory is made, its record is not yet written
    | Undoing                 // the record failed: installer removes the directory, configurator the record
    | UndoingDirectory        // configurator: remove the directory
    | Republishing            // configurator: the undo failed
    | Inside                  // the transaction runs
    | Releasing               // record verified, about to be removed
    | ReleasingDirectory      // record removed, the directory is next
    | Restoring               // the directory could not be removed
    | Unmasking(next: End)    // configurator: restore the signal mask
    | Ended(how: End)

  /**
   What a process says as it ends. `OtherError` is any error that does not mention the lock
   directory: the configurator's original error, or the installer's closed failure code.
   */
  datatype Report =
    | Silent                  // still running, or ended without an error
    | HeldByAnother           // the directory exists
    | OtherError
    | ReleaseRefused          // the owner record is not its own, or cannot be read
    | RecordRestored          // the release failed, the owner record is back
    | RecordNotRestored       // the release failed, and so did writing the owner record
    | Retained                // the installer leaves the lock for recovery

  /**
   `number` is the operating system's process number, which is reused over time; `entered`
   says that the process has been inside its transaction.
   */
  datatype Process = Process(program: Program, number: nat, pc: Pc, masked: bool, entered: bool, report: Report)

  /** The lock directory: who made it, and its `owner` and `pid` files and leftover temporaries. */
  datatype Directory = Directory(creator: nat, owner: Option<nat>, pid: Option<nat>, litter: bool)

  datatype State = State(lock: Option<Directory>, processes: map<nat, Process>)

  /** How the next file-system step of a process goes. */
  datatype Effect = Done | NotDone | DoneButFailed | Littered

  datatype Event =
    | Spawn(id: nat, program: Program, number: nat)
    | Step(id: nat, effect: Effect)
    | Retain(id: nat)
    | Kill(id: nat)

  predicate Empty(d: Directory) {
    d.owner.None? && d.pid.None? && !d.litter
  }

  /** The record a process writes: the installer its token, the configurator its number. */
  function Recorded(d: Directory, id: nat, process: Process): Directory {
    if process.program.Installer? then d.(owner := Some(id)) else d.(pid := Some(process.number))
  }

  function Unrecorded(d: Directory, process: Process): Directory {
    if process.program.Installer? then d.(owner := None) else d.(pid := None)
  }

  predicate HasRecord(d: Directory, id: nat, process: Process) {
    if process.program.Installer? then d.owner == Some(id) else d.pid == Some(process.number)
  }

  /** A record write: it may fail with or without its effect, or leave its temporary file. */
  function AfterWrite(d: Directory, id: nat, process: Process, effect: Effect): Directory {
    match effect
    case Done => Recorded(d, id, process)
    case DoneButFailed => Recorded(d, id, process)
    case NotDone => d
    case Littered => d.(litter := true)
  }

  /** What one step of a process leaves at the lock's path and of the process. */
  datatype Outcome = Outcome(lock: Option<Directory>, me: Process)

  function Ends(me: Process, how: End, report: Report): Process {
    me.(pc := Ended(how), report := report)
  }

  /** `mkdir`, which fails if the directory exists. */
  function MakeDirectory(lock: Option<Directory>, id: nat, me: Process, effect: Effect): Outcome {
    var made := Some(Directory(id, None, None, false));
    var why := if lock.Some? then HeldByAnother else OtherError;
    if lock.None? && effect.Done? then Outcome(made, me.(pc := Made))
    else if me.program.Configurator? then Outcome(lock, me.(pc := Unmasking(Refused), report := why))
    else if lock.None? && effect.DoneButFailed? then Outcome(made, Ends(me, Stranded, why))
    else Outcome(lock, Ends(me, Refused, why))
  }

  /** The start of a release, or the installer's verification before a later phase. */
  function Verify(d: Directory, id: nat, me: Process, effect: Effect): Process {
    if effect.Done? && HasRecord(d, id, me) then me.(pc := Releasing)
    else if me.program.Configurator? || effect.Done? then Ends(me, Stranded, ReleaseRefused)
    else Ends(me, Stranded, OtherError)
  }

  /** Writing the owner record again after the directory could not be removed. */
  function Restore(d: Directory, id: nat, me: Process, effect: Effect): Outcome {
    if me.program.Configurator? then
      Outcome(Some(AfterWrite(d, id, me, effect)),
              Ends(me, Stranded, if effect.Done? then RecordRestored else RecordNotRestored))
    else if d.owner.Some? then Outcome(Some(d), Ends(me, Stranded, OtherError))
    else Outcome(Some(AfterWrite(d, id, me, effect)),
                 Ends(me, Stranded, if effect.Done? then RecordRestored else OtherError))
  }

  /** Steps on the directory `d` at the lock's path, whoever made it. */
  function DirectoryStep(d: Directory, id: nat, me: Process, effect: Effect): Outcome {
    var installer := me.program.Installer?;
    match me.pc
    case Made =>
      Outcome(Some(AfterWrite(d, id, me, effect)),
              if effect.Done? then me.(pc := Inside, entered := true) else me.(pc := Undoing))
    case Undoing =>
      if !installer then
        Outcome(Some(if effect.Done? || effect.DoneButFailed? then Unrecorded(d, me) else d),
                me.(pc := if effect.Done? then UndoingDirectory else Republishing))
      else if effect.Done? && Empty(d) then Outcome(None, Ends(me, Refused, OtherError))
      else Outcome(Some(d), Ends(me, Stranded, OtherError))
    case UndoingDirectory =>
      if effect.Done? && Empty(d) then Outcome(None, me.(pc := Unmasking(Refused), report := OtherError))
      else Outcome(Some(d), me.(pc := Republishing))
    case Republishing =>
      Outcome(Some(AfterWrite(d, id, me, effect)), Ends(me, Stranded, OtherError))
    case Inside => Outcome(Some(d), Verify(d, id, me, effect))
    case Releasing =>
      Outcome(Some(if effect.Done? || effect.DoneButFailed? then Unrecorded(d, me) else d),
              if effect.Done? then me.(pc := ReleasingDirectory)
              else if installer then Ends(me, Stranded, OtherError)
              else me.(pc := Restoring))
    case ReleasingDirectory =>
      if effect.Done? && Empty(d) then
        Outcome(None, if installer then Ends(me, Released, Silent) else me.(pc := Unmasking(Released)))
      else if installer && effect.DoneButFailed? && Empty(d) then Outcome(None, Ends(me, Released, OtherError))
      else Outcome(Some(d), me.(pc := Restoring))
    case Restoring => Restore(d, id, me, effect)
    case _ => Outcome(Some(d), me)
  }

  function ProcessStep(lock: Option<Directory>, id: nat, me: Process, effect: Effect): Outcome {
    match me.pc
    case Starting =>
      if me.program.Installer? then MakeDirectory(lock, id, me, effect)
      else if effect.Done? then Outcome(lock, me.(pc := Masked, masked := true))
      else Outcome(lock, Ends(me, Refused, OtherError))
    case Masked => MakeDirectory(lock, id, me, effect)
    case Unmasking(end) => Outcome(lock, me.(pc := Ended(end), masked := false))
    case Ended(_) => Outcome(lock, me)
    case _ => if lock.Some? then DirectoryStep(lock.value, id, me, effect)
              else Outcome(lock, Ends(me, Stranded, OtherError))
  }

  function Next(s: State, e: Event): State {
    match e
    case Spawn(id, program, number) =>
      if id in s.processes then s
      else s.(processes := s.processes[id := Process(program, number, Starting, false, false, Silent)])
    case Step(id, effect) =>
      if id !in s.processes then s
      else
        var outcome := ProcessStep(s.lock, id, s.processes[id], effect);
        State(outcome.lock, s.processes[id := outcome.me])
    case Retain(id) =>
      if id in s.processes && s.processes[id].pc.Inside? && s.processes[id].program.Installer?
      then s.(processes := s.processes[id := Ends(s.processes[id], Stranded, Retained)])
      else s
    case Kill(id) =>
      if id in s.processes && !s.processes[id].pc.Ended? then
           s.(processes := s.processes[id := Ends(s.processes[id], Killed, Silent)])
      else s
  }

  function Run(s: State, events: seq<Event>): State {
    if events == [] then s else Next(Run(s, events[..|events| - 1]), events[|events| - 1])
  }

  const FREE := State(None, map[])

  // ---------------------------------------------------------------- the invariant

  /** Between making the directory and removing it, or ending without removing it. */
  predicate Holder(pc: Pc) {
    pc.Made? || pc.Undoing? || pc.UndoingDirectory? || pc.Republishing? || pc.Inside? || pc.Releasing?
    || pc.ReleasingDirectory?
    || pc.Restoring? || pc == Ended(Stranded)
  }

  predicate MadeBy(lock: Option<Directory>, id: nat) {
    lock.Some? && lock.value.creator == id
  }

  ghost predicate Located(lock: Option<Directory>, id: nat, me: Process) {
    && (Holder(me.pc) ==> MadeBy(lock, id))
    && (!Holder(me.pc) && me.pc != Ended(Killed) ==> !MadeBy(lock, id))
    && (me.pc.Unmasking? ==> me.pc.next.Refused? || me.pc.next.Released?)
  }

  /** A configurator's signals are blocked exactly while it may hold or still make the directory. */
  ghost predicate MaskInv(me: Process) {
    if me.program.Installer? then !me.masked && !me.pc.Masked? && !me.pc.Unmasking? && !me.pc.UndoingDirectory?
       && !me.pc.Republishing?
    else me.pc != Ended(Killed) ==> (me.masked <==> Holder(me.pc) || me.pc.Masked? || me.pc.Unmasking?)
  }

  ghost predicate RecordInv(lock: Option<Directory>, id: nat, me: Process) {
    MadeBy(lock, id) ==>
      && (me.pc.Inside? || me.pc.Releasing? ==> HasRecord(lock.value, id, me))
      && (me.pc.ReleasingDirectory? ==> lock.value.owner.None? && lock.value.pid.None?)
      && (me.pc.Restoring? && me.program.Installer? ==> lock.value.owner.None?)
      && (if me.program.Installer? then lock.value.pid.None? else lock.value.owner.None?)
  }

  /** Reports that tell of a lock directory left behind. */
  predicate Tells(r: Report) {
    r.ReleaseRefused? || r.RecordRestored? || r.RecordNotRestored? || r.Retained?
  }

  /** The process has been inside its transaction, or has not yet been, by where it stands. */
  predicate Past(pc: Pc) {
    pc.Inside? || pc.Releasing? || pc.ReleasingDirectory? || pc.Restoring?
    || pc == Unmasking(Released) || pc == Ended(Released)
  }

  predicate Before(pc: Pc) {
    pc.Starting? || pc.Masked? || pc.Made? || pc.Undoing? || pc.UndoingDirectory? || pc.Republishing?
    || pc == Unmasking(Refused) || pc == Ended(Refused)
  }

  ghost predicate ReportInv(lock: Option<Directory>, id: nat, me: Process) {
    && (Past(me.pc) ==> me.entered)
    && (Before(me.pc) ==> !me.entered)
    && (Tells(me.report) ==> me.pc == Ended(Stranded) && me.entered)
    && (me.pc == Ended(Stranded) || me.pc == Ended(Refused) || me.pc == Unmasking(Refused) ==> !me.report.Silent?)
    && (me.report.HeldByAnother? ==> me.pc != Ended(Stranded))
    && (me.report.RecordRestored? && MadeBy(lock, id) ==> HasRecord(lock.value, id, me))
    && (me.program.Configurator? && me.pc == Ended(Stranded) && me.entered ==> Tells(me.report))
    && (me.program.Configurator? && (me.pc == Ended(Released) || me.pc == Unmasking(Released)) ==> me.report.Silent?)
    && (!me.pc.Ended? && !me.pc.Unmasking? ==> me.report.Silent?)
  }

  ghost predicate ProcessInv(lock: Option<Directory>, id: nat, me: Process) {
    Located(lock, id, me) && MaskInv(me) && RecordInv(lock, id, me) && ReportInv(lock, id, me)
  }

  ghost predicate Inv(s: State) {
    && (forall id :: id in s.processes ==> ProcessInv(s.lock, id, s.processes[id]))
    && (s.lock.Some? ==> s.lock.value.creator in s.processes)
  }

  lemma OwnStep(lock: Option<Directory>, id: nat, me: Process, effect: Effect)
    requires ProcessInv(lock, id, me)
    ensures var o := ProcessStep(lock, id, me, effect); ProcessInv(o.lock, id, o.me)
  {
    hide ProcessStep, MaskInv, Located, RecordInv, ReportInv;
    OwnPlace(lock, id, me, effect);
    OwnMask(lock, id, me, effect);
    OwnRecord(lock, id, me, effect);
    OwnReport(lock, id, me, effect);
  }

  lemma OwnPlace(lock: Option<Directory>, id: nat, me: Process, effect: Effect)
    requires ProcessInv(lock, id, me)
    ensures var o := ProcessStep(lock, id, me, effect); Located(o.lock, id, o.me)
  {
    hide RecordInv, ReportInv;
  }

  lemma OwnMask(lock: Option<Directory>, id: nat, me: Process, effect: Effect)
    requires ProcessInv(lock, id, me)
    ensures var o := ProcessStep(lock, id, me, effect); MaskInv(o.me)
  {
    hide RecordInv, ReportInv;
  }

  lemma OwnRecord(lock: Option<Directory>, id: nat, me: Process, effect: Effect)
    requires ProcessInv(lock, id, me)
    ensures var o := ProcessStep(lock, id, me, effect); RecordInv(o.lock, id, o.me)
  {
    hide MaskInv, ReportInv;
    if Holder(me.pc) && !me.pc.Ended? {
      hide DirectoryStep;
      RecordStep(lock.value, id, me, effect);
    }
  }

  lemma RecordStep(d: Directory, id: nat, me: Process, effect: Effect)
    requires ProcessInv(Some(d), id, me) && Holder(me.pc) && !me.pc.Ended?
    ensures var o := DirectoryStep(d, id, me, effect); RecordInv(o.lock, id, o.me)
  {
    hide ReportInv;
    if me.program.Installer? {
    } else {
    }
  }

  lemma OwnReport(lock: Option<Directory>, id: nat, me: Process, effect: Effect)
    requires ProcessInv(lock, id, me)
    ensures var o := ProcessStep(lock, id, me, effect); ReportInv(o.lock, id, o.me)
  {
  }

  /** What a step may do to the lock's path: nothing unless the process made, or makes, the directory. */
  lemma StepOnLock(lock: Option<Directory>, id: nat, me: Process, effect: Effect)
    requires ProcessInv(lock, id, me)
    ensures var o := ProcessStep(lock, id, me, effect);
            o.lock == lock || (lock.None? && MadeBy(o.lock, id))
            || (MadeBy(lock, id) && (o.lock.None? || MadeBy(o.lock, id)))
  {
  }

  lemma OtherStays(before: Option<Directory>, after: Option<Directory>, id: nat, other: nat, process: Process)
    requires ProcessInv(before, other, process) && other != id
    requires after == before || (before.None? && MadeBy(after, id))
             || (MadeBy(before, id) && (after.None? || MadeBy(after, id)))
    ensures ProcessInv(after, other, process)
  {
  }

  lemma NextKeepsInv(s: State, e: Event)
    requires Inv(s)
    ensures Inv(Next(s, e))
  {
    hide ProcessStep, ProcessInv;
    if e.Step? && e.id in s.processes {
      var me := s.processes[e.id];
      OwnStep(s.lock, e.id, me, e.effect);
      StepOnLock(s.lock, e.id, me, e.effect);
      forall other | other in s.processes && other != e.id
        ensures ProcessInv(ProcessStep(s.lock, e.id, me, e.effect).lock, other, s.processes[other]) {
        OtherStays(s.lock, ProcessStep(s.lock, e.id, me, e.effect).lock, e.id, other, s.processes[other]);
      }
    } else if e.Spawn? && e.id !in s.processes {
      NewProcess(s.lock, e.id, Process(e.program, e.number, Starting, false, false, Silent));
    } else if e.Kill? && e.id in s.processes {
      Killing(s.lock, e.id, s.processes[e.id]);
    } else if e.Retain? && e.id in s.processes && s.processes[e.id].pc.Inside? && s.processes[e.id].program.Installer? {
      Retaining(s.lock, e.id, s.processes[e.id]);
    }
  }

  lemma NewProcess(lock: Option<Directory>, id: nat, me: Process)
    requires !MadeBy(lock, id) && me.pc.Starting? && !me.masked && !me.entered && me.report.Silent?
    ensures ProcessInv(lock, id, me)
  {
  }

  lemma Killing(lock: Option<Directory>, id: nat, me: Process)
    requires ProcessInv(lock, id, me)
    ensures ProcessInv(lock, id, Ends(me, Killed, Silent))
  {
  }

  lemma Retaining(lock: Option<Directory>, id: nat, me: Process)
    requires ProcessInv(lock, id, me) && me.program.Installer? && me.pc.Inside?
    ensures ProcessInv(lock, id, Ends(me, Stranded, Retained))
  {
  }

  lemma {:induction false} RunKeepsInv(events: seq<Event>)
    ensures Inv(Run(FREE, events))
  {
    hide Next, Inv;
    if events == [] {
      NothingRuns();
    } else {
      RunKeepsInv(events[..|events| - 1]);
      NextKeepsInv(Run(FREE, events[..|events| - 1]), events[|events| - 1]);
    }
  }

  lemma NothingRuns()
    ensures Inv(FREE)
  {
  }

  // ---------------------------------------------------------------- what every run keeps

  /** At most one process is inside its transaction. */
  lemma OneInside(events: seq<Event>, a: nat, b: nat)
    requires var s := Run(FREE, events);
             && a in s.processes && b in s.processes && s.processes[a].pc.Inside?
             && s.processes[b].pc.Inside?
    ensures a == b
  {
    RunKeepsInv(events);
    hide Run;
    var s := Run(FREE, events);
    assert MadeBy(s.lock, a) && MadeBy(s.lock, b);
  }

  /** Whoever is inside still has its own record in the directory, so its release never finds another's. */
  lemma InsideHasItsRecord(events: seq<Event>, id: nat)
    requires var s := Run(FREE, events); id in s.processes && s.processes[id].pc.Inside?
    ensures var s := Run(FREE, events); MadeBy(s.lock, id) && HasRecord(s.lock.value, id, s.processes[id])
  {
    RunKeepsInv(events);
    hide Run;
  }

  /** No step removes or changes a directory its process did not make, and none replaces a directory. */
  lemma OnlyTheMakerTouchesTheLock(events: seq<Event>, e: Event)
    requires var s := Run(FREE, events); s.lock.Some? && Next(s, e).lock != s.lock
    ensures var s := Run(FREE, events);
            && e.Step? && MadeBy(s.lock, e.id)
            && (Next(s, e).lock.Some? ==> MadeBy(Next(s, e).lock, e.id))
  {
    RunKeepsInv(events);
    var s := Run(FREE, events);
    hide Run, ProcessStep, ProcessInv;
    if e.Step? && e.id in s.processes { StepOnLock(s.lock, e.id, s.processes[e.id], e.effect); }
  }

  /**
   What a process that ended on its own leaves behind and says. It leaves its directory exactly
   when it ends without having removed it, and then a configurator's signals stay blocked. A
   report of a left-over lock is never false, and no process that leaves one ends silently or
   blames another. A configurator that was inside its transaction always reports it.
   */
  lemma EndsTellTheTruth(events: seq<Event>, id: nat)
    requires EndedItself(Run(FREE, events), id)
    ensures var s := Run(FREE, events); var me := s.processes[id]; var left := MadeBy(s.lock, id);
            && (left <==> me.pc.how.Stranded?)
            && (me.program.Configurator? ==> (me.masked <==> left))
            && (Tells(me.report) ==> left && me.entered)
            && (me.report.Silent? || me.report.HeldByAnother? ==> !left)
            && (me.program.Configurator? && me.entered ==> (Tells(me.report) <==> left))
            && (me.report.RecordRestored? ==> HasRecord(s.lock.value, id, me))
  {
    RunKeepsInv(events);
    hide Run;
    var s := Run(FREE, events);
    assert ProcessInv(s.lock, id, s.processes[id]);
  }

  predicate EndedItself(s: State, id: nat) {
    id in s.processes && s.processes[id].pc.Ended? && s.processes[id].pc.how != Killed
  }

  /** The process ended with an error that does not mention its directory. */
  predicate EndedWithAnError(s: State, id: nat) {
    EndedItself(s, id) && s.processes[id].report.OtherError?
  }

  /** A program that runs alone, its steps going as `effects` says. */
  function Alone(program: Program, effects: seq<Effect>): seq<Event> {
    [Spawn(0, program, 1)] + seq(|effects|, i requires 0 <= i < |effects| => Step(0, effects[i]))
  }

  predicate FailsLeavingIt(program: Program, effects: seq<Effect>) {
    var s := Run(FREE, Alone(program, effects));
    EndedWithAnError(s, 0) && MadeBy(s.lock, 0)
  }

  predicate FailsFreeingIt(program: Program, effects: seq<Effect>) {
    var s := Run(FREE, Alone(program, effects));
    EndedWithAnError(s, 0) && s.lock.None?
  }

  /**
   Such an error tells nothing: the record could not be written and undoing the directory failed,
   or succeeded, and both programs pass on the first error alone.
   */
  lemma AFailedAcquisitionDoesNotTell()
    ensures FailsLeavingIt(Installer, [Done, NotDone, NotDone])
    ensures FailsFreeingIt(Installer, [Done, NotDone, Done])
    ensures FailsLeavingIt(Configurator, [Done, Done, NotDone, NotDone, NotDone])
    ensures FailsFreeingIt(Configurator, [Done, Done, NotDone, Done, Done, Done])
  {
    hide Run, Alone;
    var a := StartsAlone(Installer);
    a := GoesOn(Installer, [], Done, [Done], a);
    a := GoesOn(Installer, [Done], NotDone, [Done, NotDone], a);
    var left := GoesOn(Installer, [Done, NotDone], NotDone, [Done, NotDone, NotDone], a);
    var gone := GoesOn(Installer, [Done, NotDone], Done, [Done, NotDone, Done], a);
    ConfiguratorFailsToo();
  }

  lemma ConfiguratorFailsToo()
    ensures FailsLeavingIt(Configurator, [Done, Done, NotDone, NotDone, NotDone])
    ensures FailsFreeingIt(Configurator, [Done, Done, NotDone, Done, Done, Done])
  {
    hide Run, Alone;
    var a := StartsAlone(Configurator);
    a := GoesOn(Configurator, [], Done, [Done], a);
    a := GoesOn(Configurator, [Done], Done, [Done, Done], a);
    a := GoesOn(Configurator, [Done, Done], NotDone, [Done, Done, NotDone], a);
    var left := GoesOn(Configurator, [Done, Done, NotDone], NotDone, [Done, Done, NotDone, NotDone], a);
    left := GoesOn(Configurator, [Done, Done, NotDone, NotDone], NotDone, [Done, Done, NotDone, NotDone, NotDone],
                   left);
    var gone := GoesOn(Configurator, [Done, Done, NotDone], Done, [Done, Done, NotDone, Done], a);
    gone := GoesOn(Configurator, [Done, Done, NotDone, Done], Done, [Done, Done, NotDone, Done, Done], gone);
    gone := GoesOn(Configurator, [Done, Done, NotDone, Done, Done], Done, [Done, Done, NotDone, Done, Done, Done],
                   gone);
  }

  /** An installer whose directory removal takes effect and then fails has freed the lock and ends with an error. */
  lemma AFreedLockMayStillBeAnError()
    ensures FailsFreeingIt(Installer, [Done, Done, Done, Done, DoneButFailed])
  {
    hide Run, Alone;
    var a := ReleaseBegins();
    a := GoesOn(Installer, [Done, Done, Done], Done, [Done, Done, Done, Done], a);
    a := GoesOn(Installer, [Done, Done, Done, Done], DoneButFailed, [Done, Done, Done, Done, DoneButFailed], a);
  }

  lemma ReleaseBegins() returns (o: Outcome)
    ensures Run(FREE, Alone(Installer, [Done, Done, Done])) == State(o.lock, map[0 := o.me])
    ensures o == Outcome(Some(Directory(0, Some(0), None, false)),
                         Process(Installer, 1, Releasing, false, true, Silent))
  {
    hide Run, Alone;
    o := StartsAlone(Installer);
    o := GoesOn(Installer, [], Done, [Done], o);
    o := GoesOn(Installer, [Done], Done, [Done, Done], o);
    o := GoesOn(Installer, [Done, Done], Done, [Done, Done, Done], o);
  }

  lemma StartsAlone(program: Program) returns (o: Outcome)
    ensures Run(FREE, Alone(program, [])) == State(o.lock, map[0 := o.me])
    ensures o == Outcome(None, Process(program, 1, Starting, false, false, Silent))
  {
    var start := [Spawn(0, program, 1)];
    assert Alone(program, []) == start && start[..0] == [];
    assert Run(FREE, start) == Next(FREE, start[0]);
    o := Outcome(None, Process(program, 1, Starting, false, false, Silent));
  }

  lemma GoesOn(program: Program, effects: seq<Effect>, effect: Effect, longer: seq<Effect>, before: Outcome)
    returns (after: Outcome)
    requires Run(FREE, Alone(program, effects)) == State(before.lock, map[0 := before.me])
    requires longer == effects + [effect]
    ensures after == ProcessStep(before.lock, 0, before.me, effect)
    ensures Run(FREE, Alone(program, longer)) == State(after.lock, map[0 := after.me])
  {
    hide ProcessStep;
    assert Alone(program, longer) == Alone(program, effects) + [Step(0, effect)];
    assert Alone(program, longer)[..|effects| + 1] == Alone(program, effects);
    after := ProcessStep(before.lock, 0, before.me, effect);
  }

  /** The steps from which a release that goes wrong leaves the directory without its record. */
  predicate LosesTheRecord(d: Directory, id: nat, me: Process, effect: Effect) {
    || (me.program.Installer? && me.pc.Releasing? && effect.DoneButFailed?)
    || (me.pc.Restoring? && !HasRecord(d, id, me) && (effect.NotDone? || effect.Littered?))
  }

  /**
   A release that goes wrong leaves the directory, and for good: whatever runs afterwards, the
   directory has its record exactly unless the installer's removal of the record took effect and
   was then reported as failed, or the record was gone and writing it back did not take effect.
   */
  lemma FailedReleaseKeepsTheRecord(events: seq<Event>, id: nat, effect: Effect, more: seq<Event>)
    requires var s := Run(FREE, events); id in s.processes && s.processes[id].entered && !s.processes[id].pc.Ended?
    requires Next(Run(FREE, events), Step(id, effect)).processes[id].pc == Ended(Stranded)
    ensures var s, t := Run(FREE, events), Run(FREE, events + [Step(id, effect)] + more);
            && MadeBy(s.lock, id) && MadeBy(t.lock, id) && id in t.processes && t.processes[id].pc == Ended(Stranded)
            && (HasRecord(t.lock.value, id, t.processes[id]) <==>
                  !LosesTheRecord(s.lock.value, id, s.processes[id], effect))
  {
    var s := Run(FREE, events);
    var there := events + [Step(id, effect)];
    RunKeepsInv(events);
    var o := Stranding(events, id, effect);
    hide Run, ProcessStep;
    StaleLockStays(there, more);
  }

  lemma Stranding(events: seq<Event>, id: nat, effect: Effect) returns (o: Outcome)
    requires var s := Run(FREE, events); id in s.processes && s.processes[id].entered && !s.processes[id].pc.Ended?
    requires Next(Run(FREE, events), Step(id, effect)).processes[id].pc == Ended(Stranded)
    ensures var s, t := Run(FREE, events), Run(FREE, events + [Step(id, effect)]);
            && o == ProcessStep(s.lock, id, s.processes[id], effect)
            && t.lock == o.lock && id in t.processes && t.processes[id] == o.me
            && MadeBy(s.lock, id) && MadeBy(o.lock, id) && o.me.pc == Ended(Stranded)
            && (HasRecord(o.lock.value, id, o.me) <==> !LosesTheRecord(s.lock.value, id, s.processes[id], effect))
  {
    var s := Run(FREE, events);
    var there := events + [Step(id, effect)];
    assert there[..|there| - 1] == events;
    assert Run(FREE, there) == Next(s, Step(id, effect));
    RunKeepsInv(events);
    hide Run;
    o := ProcessStep(s.lock, id, s.processes[id], effect);
    assert ProcessInv(s.lock, id, s.processes[id]);
    StrandingStep(s.lock, id, s.processes[id], effect);
  }

  lemma StrandingStep(lock: Option<Directory>, id: nat, me: Process, effect: Effect)
    requires ProcessInv(lock, id, me) && me.entered && !me.pc.Ended?
    requires ProcessStep(lock, id, me, effect).me.pc == Ended(Stranded)
    ensures var o := ProcessStep(lock, id, me, effect);
            && MadeBy(lock, id) && MadeBy(o.lock, id)
            && (HasRecord(o.lock.value, id, o.me) <==> !LosesTheRecord(lock.value, id, me, effect))
  {
  }

  /** Such a lock without an owner: the installer's error does not mention it, and every later program finds it. */
  lemma AnOwnerlessLockStays(more: seq<Event>)
    ensures var s := Run(FREE, Alone(Installer, [Done, Done, Done, DoneButFailed]) + more);
            s.lock == Some(Directory(0, None, None, false)) && EndedWithAnError(s, 0)
  {
    var effects := [Done, Done, Done, DoneButFailed];
    var a := ReleaseBegins();
    a := GoesOn(Installer, [Done, Done, Done], DoneButFailed, effects, a);
    hide Run, Alone;
    StaleLockStays(Alone(Installer, effects), more);
  }

  /** A directory whose maker has ended stays as it is, whatever runs afterwards. */
  lemma {:induction false} StaleLockStays(events: seq<Event>, more: seq<Event>)
    requires var s := Run(FREE, events);
             && s.lock.Some? && s.lock.value.creator in s.processes
             && s.processes[s.lock.value.creator].pc.Ended?
    ensures var s, t := Run(FREE, events), Run(FREE, events + more);
            t.lock == s.lock && s.lock.value.creator in t.processes
            && t.processes[s.lock.value.creator] == s.processes[s.lock.value.creator]
  {
    hide Next;
    var s := Run(FREE, events);
    if more == [] {
      assert events + more == events;
    } else {
      var n := |more| - 1;
      StaleLockStays(events, more[..n]);
      assert (events + more)[..|events + more| - 1] == events + more[..n];
      EndedStays(events + more[..n], more[n]);
    }
  }

  lemma EndedStays(events: seq<Event>, e: Event)
    requires var s := Run(FREE, events);
             && s.lock.Some? && s.lock.value.creator in s.processes
             && s.processes[s.lock.value.creator].pc.Ended?
    ensures var s := Run(FREE, events); var t := Next(s, e);
            t.lock == s.lock && s.lock.value.creator in t.processes
            && t.processes[s.lock.value.creator] == s.processes[s.lock.value.creator]
  {
    RunKeepsInv(events);
    hide Run, ProcessInv;
    var s := Run(FREE, events);
    if e.Step? && e.id in s.processes {
      StepOnLock(s.lock, e.id, s.processes[e.id], e.effect);
      assert s.processes[e.id].pc.Ended? ==>
               ProcessStep(s.lock, e.id, s.processes[e.id], e.effect) == Outcome(s.lock, s.processes[e.id]);
    }
  }

  /** The lock outlives its processes only if one of them was killed or ended without removing it. */
  lemma NoLockIsForgotten(events: seq<Event>)
    requires var s := Run(FREE, events); forall id ::
               id in s.processes ==> s.processes[id].pc in {Ended(Refused), Ended(Released)}
    ensures Run(FREE, events).lock.None?
  {
    RunKeepsInv(events);
    hide Run;
    var s := Run(FREE, events);
    forall id | id in s.processes ensures !MadeBy(s.lock, id) { assert ProcessInv(s.lock, id, s.processes[id]); }
  }

  // ---------------------------------------------------------------- runs that get through

  /** The events so far, then one more process whose first `n` steps all work. */
  function WithOneMore(events: seq<Event>, id: nat, program: Program, number: nat, n: nat): seq<Event> {
    events + [Spawn(id, program, number)] + seq(n, _ => Step(id, Done))
  }

  lemma OneMoreStep(events: seq<Event>, id: nat, program: Program, number: nat, n: nat)
    ensures Run(FREE, WithOneMore(events, id, program, number, n + 1)) ==
              Next(Run(FREE, WithOneMore(events, id, program, number, n)), Step(id, Done))
    ensures Run(FREE, WithOneMore(events, id, program, number, 0)) ==
              Next(Run(FREE, events), Spawn(id, program, number))
  {
    hide Next;
    var longer := WithOneMore(events, id, program, number, n + 1);
    assert longer[..|longer| - 1] == WithOneMore(events, id, program, number, n);
    var first := WithOneMore(events, id, program, number, 0);
    assert first == events + [Spawn(id, program, number)] && first[..|first| - 1] == events;
  }

  /** Where a process stands after `n` steps that work, if the lock was free. */
  function Standing(id: nat, program: Program, number: nat, n: nat): Outcome {
    var made := Directory(id, None, None, false);
    var recorded := if program.Installer? then made.(owner := Some(id)) else made.(pid := Some(number));
    var start := Process(program, number, Starting, false, false, Silent);
    var k := if program.Installer? then n else n - 1;
    var me := start.(masked := program.Configurator?);
    var inside := me.(entered := true);
    if n == 0 then Outcome(None, start)
    else if k == 0 then Outcome(None, me.(pc := Masked))
    else if k == 1 then Outcome(Some(made), me.(pc := Made))
    else if k == 2 then Outcome(Some(recorded), inside.(pc := Inside))
    else if k == 3 then Outcome(Some(recorded), inside.(pc := Releasing))
    else if k == 4 then Outcome(Some(made), inside.(pc := ReleasingDirectory))
    else if k == 5 && program.Configurator? then Outcome(None, inside.(pc := Unmasking(Released)))
    else Outcome(None, inside.(masked := false, pc := Ended(Released)))
  }

  lemma NextStanding(id: nat, program: Program, number: nat, n: nat)
    ensures var o := Standing(id, program, number, n);
            ProcessStep(o.lock, id, o.me, Done) == Standing(id, program, number, n + 1)
  {
  }

  lemma {:induction false} Stands(events: seq<Event>, id: nat, program: Program, number: nat, n: nat)
    requires var s := Run(FREE, events); s.lock.None? && id !in s.processes
    ensures var s := Run(FREE, events); var o := Standing(id, program, number, n);
            Run(FREE, WithOneMore(events, id, program, number, n)) == State(o.lock, s.processes[id := o.me])
  {
    hide Run, WithOneMore, ProcessStep;
    OneMoreStep(events, id, program, number, n);
    if n > 0 {
      Stands(events, id, program, number, n - 1);
      OneMoreStep(events, id, program, number, n - 1);
      NextStanding(id, program, number, n - 1);
      hide Standing;
      var s, o := Run(FREE, events), Standing(id, program, number, n - 1);
      var after := Standing(id, program, number, n);
      assert s.processes[id := o.me][id := after.me] == s.processes[id := after.me];
    }
  }

  /**
   If the lock is free, whatever ran before, a program none of whose steps fails gets inside with
   its own record, and going on releases the lock: it ends without an error, its signals restored,
   and the lock is free again.
   */
  lemma AnUndisturbedRunGetsThrough(events: seq<Event>, id: nat, program: Program, number: nat)
    requires var s := Run(FREE, events); s.lock.None? && id !in s.processes
    ensures var s := Run(FREE, WithOneMore(events, id, program, number, if program.Installer? then 2 else 3));
            && id in s.processes && s.processes[id].pc.Inside? && MadeBy(s.lock, id)
            && HasRecord(s.lock.value, id, s.processes[id])
    ensures var s := Run(FREE, WithOneMore(events, id, program, number, if program.Installer? then 5 else 7));
            && s.lock == None && id in s.processes && s.processes[id].pc == Ended(Released)
            && s.processes[id].report == Silent && !s.processes[id].masked
            && forall other :: other != id && other in Run(FREE, events).processes ==>
                 other in s.processes && s.processes[other] == Run(FREE, events).processes[other]
  {
    hide Run, WithOneMore;
    Stands(events, id, program, number, if program.Installer? then 2 else 3);
    Stands(events, id, program, number, if program.Installer? then 5 else 7);
  }

  /** A program that finds the lock held says so, ends refused with its signals restored, and leaves the lock alone. */
  lemma AHeldLockIsLeftAlone(events: seq<Event>, id: nat, program: Program, number: nat)
    requires var s := Run(FREE, events); s.lock.Some? && id !in s.processes
    ensures var s := Run(FREE, WithOneMore(events, id, program, number, if program.Installer? then 1 else 3));
            && s.lock == Run(FREE, events).lock && id in s.processes && s.processes[id].pc == Ended(Refused)
            && s.processes[id].report == HeldByAnother && !s.processes[id].masked
  {
    hide Run, WithOneMore, ProcessStep;
    var s := Run(FREE, events);
    var start := Process(program, number, Starting, false, false, Silent);
    HeldSteps(s.lock, id, program, number);
    OneMoreStep(events, id, program, number, 0);
    StepInPlace(s, id, start);
    if program.Configurator? {
      OneMoreStep(events, id, program, number, 1);
      StepInPlace(s, id, start.(pc := Masked, masked := true));
      OneMoreStep(events, id, program, number, 2);
      StepInPlace(s, id, start.(pc := Unmasking(Refused), masked := true, report := HeldByAnother));
    }
  }

  lemma StepInPlace(s: State, id: nat, me: Process)
    requires ProcessStep(s.lock, id, me, Done).lock == s.lock
    ensures Next(s.(processes := s.processes[id := me]), Step(id, Done)) ==
              s.(processes := s.processes[id := ProcessStep(s.lock, id, me, Done).me])
  {
    hide ProcessStep;
    var after := ProcessStep(s.lock, id, me, Done).me;
    assert s.processes[id := me][id := after] == s.processes[id := after];
  }

  lemma HeldSteps(lock: Option<Directory>, id: nat, program: Program, number: nat)
    requires lock.Some?
    ensures var start := Process(program, number, Starting, false, false, Silent);
            var masked := start.(pc := Masked, masked := true);
            var refused := masked.(pc := Unmasking(Refused), report := HeldByAnother);
            if program.Installer? then
              ProcessStep(lock, id, start, Done) == Outcome(lock, start.(pc := Ended(Refused), report := HeldByAnother))
            else && ProcessStep(lock, id, start, Done) == Outcome(lock, masked)
                 && ProcessStep(lock, id, masked, Done) == Outcome(lock, refused)
                 && ProcessStep(lock, id, refused, Done) ==
                      Outcome(lock, refused.(pc := Ended(Refused), masked := false))
  {
  }
}
