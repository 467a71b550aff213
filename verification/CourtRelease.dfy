/**
 Content-addressed Court packages (scripts/prepare-court-release.py): any number of
 preparers stepping concurrently, each of whose steps may fail or be its last.
 */
module CourtRelease {
  import opened Wrappers
  import opened Text

  datatype Name = AppJs | CourtJs | IndexHtml | ServerCourt | ManifestName | Stray(name: string)

  const ASSETS := [AppJs, CourtJs, IndexHtml, ServerCourt]

  function Path(name: Name): string {
    match name
    case AppJs => "app.js"
    case CourtJs => "court.js"
    case IndexHtml => "index.html"
    case ServerCourt => "server/court.mjs"
    case ManifestName => "release-manifest.json"
    case Stray(s) => s
  }

  /** The bytes of the four assets. */
  datatype Values = Values(app: string, court: string, index: string, server: string) {
    function At(name: Name): string {
      match name
      case AppJs => app
      case CourtJs => court
      case IndexHtml => index
      case _ => server
    }
  }

  /** SHA-256, as an injective function of what is hashed. */
  datatype Digest = Sha256(of: Hashed)
  datatype Hashed = Bytes(bytes: string) | Encoded(manifest: Manifest)

  datatype Row = Row(path: Name, bytes: nat, sha256: Digest)

  /** The varying parts of the manifest; `node`, `ingress` and `preparer` are opaque here. */
  datatype Manifest = Manifest(courtDigest: Digest, assets: seq<Row>, node: string, ingress: string, preparer: string)

  // ---------------------------------------------------------------- the framed digest

  /** What `court_digest` hashes: every asset's path and length, NUL-terminated, then its bytes. */
  function Frame(names: seq<Name>, values: Values): string {
    if names == [] then ""
    else
      var front, last := names[..|names| - 1], names[|names| - 1];
      Frame(front, values) + (Path(last) + "\0" + Digits(|values.At(last)|) + "\0" + values.At(last))
  }

  function CourtDigest(values: Values): Digest {
    Sha256(Bytes(Frame(ASSETS, values)))
  }

  /** `court_digest`, as the loop it is. */
  method ComputeCourtDigest(values: Values) returns (digest: Digest)
    ensures digest == CourtDigest(values)
  {
    hide Frame;
    var hashed := "";
    NothingFramed(values);
    for i := 0 to |ASSETS|
      invariant hashed == Frame(ASSETS[..i], values)
    {
      FrameSnoc(ASSETS, i, values);
      hashed := hashed + (Path(ASSETS[i]) + "\0" + Digits(|values.At(ASSETS[i])|) + "\0" + values.At(ASSETS[i]));
    }
    assert ASSETS[..|ASSETS|] == ASSETS;
    return Sha256(Bytes(hashed));
  }

  lemma NothingFramed(values: Values)
    ensures Frame([], values) == ""
  {
  }

  lemma FrameSnoc(names: seq<Name>, i: nat, values: Values)
    requires i < |names|
    ensures Frame(names[..i + 1], values) ==
            Frame(names[..i], values) + (Path(names[i]) + "\0" + Digits(|values.At(names[i])|) + "\0" +
                                           values.At(names[i]))
  {
    assert names[..i + 1][..i] == names[..i];
  }

  function Piece(name: Name, values: Values): string {
    Path(name) + "\0" + Digits(|values.At(name)|) + "\0" + values.At(name)
  }

  lemma {:induction false} FrameCons(names: seq<Name>, values: Values)
    requires names != []
    ensures Frame(names, values) == Piece(names[0], values) + Frame(names[1..], values)
  {
    hide *;
    var n := |names| - 1;
    FrameSnoc(names, n, values);
    assert names[..n + 1] == names;
    PieceIs(names[n], values);
    if n == 0 {
      NothingFramed(values);
      assert names[..0] == [] && names[1..] == [];
    } else {
      FrameCons(names[..n], values);
      assert names[..n][1..] == names[1..][..n - 1] && names[1..][n - 1] == names[n];
      FrameSnoc(names[1..], n - 1, values);
      assert names[1..][..n] == names[1..];
      Associate(Piece(names[0], values), Frame(names[1..][..n - 1], values), Piece(names[n], values));
    }
  }

  lemma PieceIs(name: Name, values: Values)
    ensures Piece(name, values) == Path(name) + "\0" + Digits(|values.At(name)|) + "\0" + values.At(name)
  {
  }

  lemma Associate(a: string, b: string, c: string)
    ensures a + b + c == a + (b + c)
  {
  }

  function FirstNul(s: string): (i: nat)
    ensures i <= |s| && (i < |s| ==> s[i] == '\0') && forall k :: 0 <= k < i ==> s[k] != '\0'
  {
    if s == "" || s[0] == '\0' then 0 else 1 + FirstNul(s[1..])
  }

  lemma FirstNulAfter(x: string, u: string)
    requires '\0' !in x
    ensures FirstNul(x + ['\0'] + u) == |x|
  {
    var s := x + ['\0'] + u;
    assert s[|x|] == '\0';
    forall k | 0 <= k < |x| ensures s[k] != '\0' { assert s[k] == x[k]; }
  }

  /** Texts that agree as a whole agree before and after their first NUL. */
  lemma SplitAtNul(x: string, y: string, u: string, v: string)
    requires '\0' !in x && '\0' !in y && x + ['\0'] + u == y + ['\0'] + v
    ensures x == y && u == v
  {
    var s, t := x + ['\0'] + u, y + ['\0'] + v;
    FirstNulAfter(x, u);
    FirstNulAfter(y, v);
    assert x == s[..|x|] == t[..|y|] == y;
    assert u == s[|x| + 1..] == t[|y| + 1..] == v;
  }

  lemma NoNulInDigits(n: nat)
    ensures '\0' !in Digits(n)
  {
  }

  lemma SameTail(head: string, s: string, t: string)
    requires head + s == head + t
    ensures s == t
  {
    assert s == (head + s)[|head|..] == (head + t)[|head|..] == t;
  }

  lemma SameSplit(a: string, b: string, s: string, t: string)
    requires |a| == |b| && a + s == b + t
    ensures a == b && s == t
  {
    assert a == (a + s)[..|a|] == (b + t)[..|b|] == b;
    assert s == (a + s)[|a|..] == (b + t)[|b|..] == t;
  }

  /** The length before an asset's bytes says where they end. */
  lemma PieceInjective(name: Name, v: Values, w: Values, s: string, t: string)
    requires Piece(name, v) + s == Piece(name, w) + t
    ensures v.At(name) == w.At(name) && s == t
  {
    var head, x, y := Path(name) + "\0", Digits(|v.At(name)|), Digits(|w.At(name)|);
    Regroup(head, x, v.At(name), s);
    Regroup(head, y, w.At(name), t);
    hide Digits, Path;
    SameTail(head, x + ['\0'] + (v.At(name) + s), y + ['\0'] + (w.At(name) + t));
    NoNulInDigits(|v.At(name)|);
    NoNulInDigits(|w.At(name)|);
    SplitAtNul(x, y, v.At(name) + s, w.At(name) + t);
    DigitsSpell(|v.At(name)|);
    DigitsSpell(|w.At(name)|);
    SameSplit(v.At(name), w.At(name), s, t);
  }

  lemma Regroup(head: string, x: string, bytes: string, s: string)
    ensures head + x + "\0" + bytes + s == head + (x + ['\0'] + (bytes + s))
  {
  }

  lemma {:induction false} FrameInjective(names: seq<Name>, v: Values, w: Values)
    requires Frame(names, v) == Frame(names, w)
    ensures forall i :: 0 <= i < |names| ==> v.At(names[i]) == w.At(names[i])
  {
    hide Frame, Piece;
    if names != [] {
      FrameCons(names, v);
      FrameCons(names, w);
      PieceInjective(names[0], v, w, Frame(names[1..], v), Frame(names[1..], w));
      FrameInjective(names[1..], v, w);
      forall i | 0 < i < |names| ensures v.At(names[i]) == w.At(names[i]) { assert names[i] == names[1..][i - 1]; }
    }
  }

  /** Equal Court digests mean equal assets, byte for byte. */
  lemma CourtDigestIsInjective(v: Values, w: Values)
    requires CourtDigest(v) == CourtDigest(w)
    ensures v == w
  {
    hide Frame;
    FrameInjective(ASSETS, v, w);
    assert ASSETS[0] == AppJs && ASSETS[1] == CourtJs && ASSETS[2] == IndexHtml && ASSETS[3] == ServerCourt;
  }

  /** One asset's part of what is hashed. */
  function Section(path: string, bytes: string): string {
    path + "\0" + Digits(|bytes|) + "\0" + bytes
  }

  /** What is hashed, spelled out: the four assets by path, length and bytes, in the order of their paths. */
  lemma TheFrame(v: Values)
    ensures CourtDigest(v) ==
              Sha256(Bytes(Section("app.js", v.app) + Section("court.js", v.court) + Section("index.html", v.index)
                           + Section("server/court.mjs", v.server)))
  {
    hide Digits, Frame;
    NothingFramed(v);
    FrameSnoc(ASSETS, 0, v);
    FrameSnoc(ASSETS, 1, v);
    FrameSnoc(ASSETS, 2, v);
    FrameSnoc(ASSETS, 3, v);
    assert ASSETS[..0] == [] && ASSETS[..4] == ASSETS;
    assert Frame(ASSETS[..1], v) == Section("app.js", v.app);
  }

  // ---------------------------------------------------------------- packages

  function RowOf(name: Name, values: Values): Row {
    Row(name, |values.At(name)|, Sha256(Bytes(values.At(name))))
  }

  /** `manifest_for`. */
  function ManifestFor(values: Values, node: string, ingress: string, preparer: string): Manifest {
    Manifest(CourtDigest(values), [RowOf(AppJs, values), RowOf(CourtJs, values), RowOf(IndexHtml, values),
                                   RowOf(ServerCourt, values)],
             node, ingress, preparer)
  }

  /** A file of a package; the manifest file holds canonical JSON. */
  type Directory = map<Name, Hashed>

  /** The package of some assets, as it is once complete. */
  function Package(values: Values, manifest: Manifest): Directory {
    map[AppJs := Bytes(values.app), CourtJs := Bytes(values.court), IndexHtml := Bytes(values.index),
        ServerCourt := Bytes(values.server),
        ManifestName := Encoded(manifest)]
  }

  ghost predicate Complete(name: Digest, d: Directory) {
    exists values: Values, node: string, ingress: string, preparer: string ::
      var m := ManifestFor(values, node, ingress, preparer);
      d == Package(values, m) && name == Sha256(Encoded(m))
  }

  predicate HasBytes(d: Directory, name: Name) {
    name in d && d[name].Bytes?
  }

  /** The manifest lists each asset of the package with its length and digest, and the digest of all of them. */
  ghost predicate Lists(m: Manifest, d: Directory) {
    && |m.assets| == 4
    && (forall k :: 0 <= k < 4 ==>
          && m.assets[k].path == ASSETS[k] && HasBytes(d, ASSETS[k])
          && m.assets[k].bytes == |d[ASSETS[k]].bytes| && m.assets[k].sha256 == Sha256(d[ASSETS[k]]))
    && HasBytes(d, AppJs) && HasBytes(d, CourtJs) && HasBytes(d, IndexHtml) && HasBytes(d, ServerCourt)
    && m.courtDigest == CourtDigest(Values(d[AppJs].bytes, d[CourtJs].bytes, d[IndexHtml].bytes, d[ServerCourt].bytes))
  }

  /** `verify`, for a package directory and its name's digest. */
  method Verify(name: Digest, d: Directory) returns (r: Option<Manifest>)
    ensures r.Some? <==> Complete(name, d)
    ensures r.Some? ==> name == Sha256(Encoded(r.value))
    ensures r.Some? ==> Lists(r.value, d)
  {
    hide CourtDigest;
    if ManifestName !in d || !d[ManifestName].Encoded? { return None; }
    var m := d[ManifestName].manifest;
    if name != Sha256(Encoded(m)) { return None; }
    if d.Keys != {AppJs, CourtJs, IndexHtml, ServerCourt, ManifestName} { return None; }
    if !HasBytes(d, AppJs) || !HasBytes(d, CourtJs) || !HasBytes(d, IndexHtml) || !HasBytes(d, ServerCourt) {
      return None;
    }
    var values := Values(d[AppJs].bytes, d[CourtJs].bytes, d[IndexHtml].bytes, d[ServerCourt].bytes);
    var digest := ComputeCourtDigest(values);
    if m.assets != ManifestFor(values, m.node, m.ingress, m.preparer).assets || m.courtDigest != digest {
      return None;
    }
    assert d == Package(values, m) && m == ManifestFor(values, m.node, m.ingress, m.preparer);
    return Some(m);
  }

  /** A package's name determines every byte of it. */
  lemma NameDeterminesPackage(name: Digest, a: Directory, b: Directory)
    requires Complete(name, a) && Complete(name, b)
    ensures a == b
  {
    hide CourtDigest;
    var v: Values, n: string, i: string, p: string :| a == Package(v, ManifestFor(v, n, i, p))
                                                      && name == Sha256(Encoded(ManifestFor(v, n, i, p)));
    var w: Values, o: string, j: string, q: string :| b == Package(w, ManifestFor(w, o, j, q))
                                                      && name == Sha256(Encoded(ManifestFor(w, o, j, q)));
    CourtDigestIsInjective(v, w);
  }

  // ---------------------------------------------------------------- concurrent preparers

  /** What one run of `prepare` read before it took the lock. */
  datatype Inputs = Inputs(values: Values, node: string, ingress: string, preparer: string)

  function ManifestOf(i: Inputs): Manifest {
    ManifestFor(i.values, i.node, i.ingress, i.preparer)
  }

  /** The digest in the name of the package the inputs ask for. */
  function NameOf(i: Inputs): Digest {
    Sha256(Encoded(ManifestOf(i)))
  }

  function PackageOf(i: Inputs): Directory {
    Package(i.values, ManifestOf(i))
  }

  datatype End = Returned | Existing | Failed | Busy | Crashed

  datatype Pc =
    | Waiting | Locked | Checking | Staging(written: nat) | Sealing | Renaming | Cleaning
    | Unlocking(next: End) | Verifying | Ended(how: End)

  datatype Preparer = Preparer(inputs: Inputs, pc: Pc)

  /** The source's assets, and in the output directory the lock, the stages and the releases. */
  datatype State = State(source: Values, lock: Option<nat>, stages: map<nat, Directory>,
                         releases: map<Digest, Directory>,
                         preparers: map<nat, Preparer>)

  datatype Effect = Done | NotDone | DoneButFailed

  datatype Event = Spawn(id: nat, inputs: Inputs) | Edit(source: Values) | Step(id: nat, effect: Effect)
                   | Crash(id: nat)

  const FILES := [AppJs, CourtJs, IndexHtml, ServerCourt, ManifestName]

  /** A stage after its first `n` files. */
  function Staged(i: Inputs, n: nat): Directory
    requires n <= |FILES|
  {
    map name | name in FILES[..n] :: if name.ManifestName? then Encoded(ManifestOf(i)) else Bytes(i.values.At(name))
  }

  type Releases = map<Digest, Directory>

  /** The lock, the preparer's own stage, the releases and the preparer after one of its steps. */
  datatype Outcome = Outcome(lock: Option<nat>, stage: Option<Directory>, releases: Releases, me: Preparer)

  ghost predicate Matches(releases: Releases, i: Inputs) {
    var name := NameOf(i);
    name in releases && Complete(name, releases[name]) && ManifestName in releases[name]
    && releases[name][ManifestName] == Encoded(ManifestOf(i))
  }

  ghost function PreparerStep(source: Values, lock: Option<nat>, stage: Option<Directory>, releases: Releases, id: nat,
                              me: Preparer, effect: Effect)
    : Outcome
  {
    var name := NameOf(me.inputs);
    var stay := Outcome(lock, stage, releases, me);
    match me.pc
    case Waiting =>
      if lock.Some? then stay.(me := me.(pc := Ended(Busy)))
      else if effect.NotDone? then stay.(me := me.(pc := Ended(Failed)))
      else stay.(lock := Some(id), me := me.(pc := if effect.Done? then Locked else Ended(Failed)))
    case Locked =>
      if name in releases then stay.(me := me.(pc := Checking))
      else if effect.NotDone? then stay.(me := me.(pc := Unlocking(Failed)))
      else stay.(stage := Some(Staged(me.inputs, 0)),
                 me := me.(pc := if effect.Done? then Staging(0) else Unlocking(Failed)))
    case Checking =>
      var found := effect.Done? && Matches(releases, me.inputs) && source == me.inputs.values;
      stay.(me := me.(pc := Unlocking(if found then Existing else Failed)))
    case Staging(n) =>
      if n >= |FILES| then stay.(me := me.(pc := Sealing))
      else if effect.Done? then stay.(stage := Some(Staged(me.inputs, n + 1)), me := me.(pc := Staging(n + 1)))
      else stay.(me := me.(pc := Cleaning))
    case Sealing =>
      stay.(me := me.(pc := if effect.Done? && source == me.inputs.values then Renaming else Cleaning))
    case Renaming =>
      if effect.NotDone? || name in releases || stage.None? then stay.(me := me.(pc := Cleaning))
      else Outcome(lock, None, releases[name := stage.value],
                   me.(pc := Unlocking(if effect.Done? then Returned else Failed)))
    case Cleaning =>
      stay.(stage := if effect.Done? then None else stage, me := me.(pc := Unlocking(Failed)))
    case Unlocking(end) =>
      if effect.NotDone? || lock != Some(id) then stay.(me := me.(pc := Ended(Failed)))
      else
        var next := if effect.DoneButFailed? then Ended(Failed) else if end.Returned? then Verifying else Ended(end);
        stay.(lock := None, me := me.(pc := next))
    case Verifying =>
      stay.(me := me.(pc := Ended(if effect.Done? && Matches(releases, me.inputs) then Returned else Failed)))
    case Ended(_) => stay
  }

  function StageOf(s: State, id: nat): Option<Directory> {
    if id in s.stages then Some(s.stages[id]) else None
  }

  ghost function After(s: State, id: nat, o: Outcome): State {
    State(s.source, o.lock, if o.stage.Some? then s.stages[id := o.stage.value] else s.stages - {id},
          o.releases, s.preparers[id := o.me])
  }

  ghost function Next(s: State, e: Event): State {
    match e
    case Spawn(id, inputs) => if id in s.preparers then s
                              else s.(preparers := s.preparers[id := Preparer(inputs, Waiting)])
    case Edit(source) => s.(source := source)
    case Step(id, effect) =>
      if id in s.preparers then
        After(s, id, PreparerStep(s.source, s.lock, StageOf(s, id), s.releases, id, s.preparers[id], effect))
      else s
    case Crash(id) =>
      if id in s.preparers && !s.preparers[id].pc.Ended? then
        s.(preparers := s.preparers[id := s.preparers[id].(pc := Ended(Crashed))])
      else s
  }

  ghost function Run(s: State, events: seq<Event>): State {
    if events == [] then s else Next(Run(s, events[..|events| - 1]), events[|events| - 1])
  }

  function Fresh(source: Values): State {
    State(source, None, map[], map[], map[])
  }

  // ---------------------------------------------------------------- the invariant

  predicate Critical(pc: Pc) {
    !pc.Waiting? && !pc.Verifying? && !pc.Ended?
  }

  predicate Building(pc: Pc) {
    pc.Staging? || pc.Sealing? || pc.Renaming?
  }

  ghost predicate AllComplete(releases: Releases) {
    forall name :: name in releases ==> Complete(name, releases[name])
  }

  /** A preparer's own stage, and the names it counts on being free or taken. */
  ghost predicate PreparerInv(lock: Option<nat>, stage: Option<Directory>, releases: Releases, id: nat, me: Preparer) {
    && (Critical(me.pc) ==> lock == Some(id))
    && (Building(me.pc) ==> NameOf(me.inputs) !in releases)
    && (me.pc.Staging? ==> me.pc.written <= |FILES| && stage == Some(Staged(me.inputs, me.pc.written)))
    && (me.pc.Sealing? || me.pc.Renaming? ==> stage == Some(Staged(me.inputs, |FILES|)))
    && (me.pc in {Unlocking(Returned), Unlocking(Existing), Verifying, Ended(Returned), Ended(Existing)} ==>
          NameOf(me.inputs) in releases)
  }

  ghost predicate Inv(s: State) {
    && AllComplete(s.releases)
    && forall id :: id in s.preparers ==> PreparerInv(s.lock, StageOf(s, id), s.releases, id, s.preparers[id])
  }

  lemma StagedIsThePackage(i: Inputs)
    ensures Staged(i, |FILES|) == PackageOf(i) && Complete(NameOf(i), PackageOf(i))
  {
    assert FILES[..|FILES|] == FILES;
    hide CourtDigest, RowOf;
    assert ManifestOf(i) == ManifestFor(i.values, i.node, i.ingress, i.preparer);
  }

  /** What a step may do to the lock and the releases. */
  ghost predicate Fair(before: Outcome, after: Outcome, id: nat) {
    && (after.lock == before.lock || before.lock == Some(id) || (before.lock.None? && after.lock == Some(id)))
    && (after.releases == before.releases ||
        (before.lock == Some(id) && NameOf(before.me.inputs) !in before.releases
         && after.releases == before.releases[NameOf(before.me.inputs) := PackageOf(before.me.inputs)]))
  }

  lemma OwnStep(source: Values, lock: Option<nat>, stage: Option<Directory>, releases: Releases, id: nat, me: Preparer,
                effect: Effect)
    requires PreparerInv(lock, stage, releases, id, me)
    ensures var o := PreparerStep(source, lock, stage, releases, id, me, effect);
            PreparerInv(o.lock, o.stage, o.releases, id, o.me) && Fair(Outcome(lock, stage, releases, me), o, id)
  {
    StagedIsThePackage(me.inputs);
    hide Complete, NameOf, ManifestOf, Staged, PackageOf;
  }

  lemma OtherStays(before: Outcome, after: Outcome, id: nat, stage: Option<Directory>, other: nat, preparer: Preparer)
    requires PreparerInv(before.lock, stage, before.releases, other, preparer) && other != id && Fair(before, after, id)
    ensures PreparerInv(after.lock, stage, after.releases, other, preparer)
  {
  }

  lemma StillComplete(before: Outcome, after: Outcome, id: nat)
    requires AllComplete(before.releases) && Fair(before, after, id)
    ensures AllComplete(after.releases)
  {
  }

  lemma NextKeepsInv(s: State, e: Event)
    requires Inv(s)
    ensures Inv(Next(s, e))
  {
    hide PreparerInv, PreparerStep, AllComplete, Fair;
    if e.Step? && e.id in s.preparers {
      var me := s.preparers[e.id];
      var before := Outcome(s.lock, StageOf(s, e.id), s.releases, me);
      var after := PreparerStep(s.source, s.lock, StageOf(s, e.id), s.releases, e.id, me, e.effect);
      OwnStep(s.source, s.lock, StageOf(s, e.id), s.releases, e.id, me, e.effect);
      StillComplete(before, after, e.id);
      forall other | other in s.preparers && other != e.id
        ensures PreparerInv(after.lock, StageOf(s, other), after.releases, other, s.preparers[other]) {
        OtherStays(before, after, e.id, StageOf(s, other), other, s.preparers[other]);
      }
    } else if e.Spawn? && e.id !in s.preparers {
      Arriving(s.lock, StageOf(s, e.id), s.releases, e.id, Preparer(e.inputs, Waiting));
    } else if e.Crash? && e.id in s.preparers {
      Crashing(s.lock, StageOf(s, e.id), s.releases, e.id, s.preparers[e.id]);
    }
  }

  lemma Arriving(lock: Option<nat>, stage: Option<Directory>, releases: Releases, id: nat, me: Preparer)
    requires me.pc.Waiting?
    ensures PreparerInv(lock, stage, releases, id, me)
  {
  }

  lemma Crashing(lock: Option<nat>, stage: Option<Directory>, releases: Releases, id: nat, me: Preparer)
    requires PreparerInv(lock, stage, releases, id, me)
    ensures PreparerInv(lock, stage, releases, id, me.(pc := Ended(Crashed)))
  {
  }

  lemma {:induction false} RunKeepsInv(source: Values, events: seq<Event>)
    ensures Inv(Run(Fresh(source), events))
  {
    hide Next, Inv;
    if events == [] {
      NobodyRuns(source);
    } else {
      RunKeepsInv(source, events[..|events| - 1]);
      NextKeepsInv(Run(Fresh(source), events[..|events| - 1]), events[|events| - 1]);
    }
  }

  lemma NobodyRuns(source: Values)
    ensures Inv(Fresh(source))
  {
  }

  // ---------------------------------------------------------------- what every run keeps

  /** Whenever a release directory exists it is complete, and its name is its manifest's digest. */
  lemma ReleasesAreComplete(source: Values, events: seq<Event>, name: Digest)
    requires name in Run(Fresh(source), events).releases
    ensures Complete(name, Run(Fresh(source), events).releases[name])
  {
    RunKeepsInv(source, events);
    hide Run, Complete;
  }

  /** No step, failure or crash ever changes or removes a release. */
  lemma {:induction false} ReleasesAreImmutable(source: Values, events: seq<Event>, more: seq<Event>, name: Digest)
    requires name in Run(Fresh(source), events).releases
    ensures name in Run(Fresh(source), events + more).releases
            && Run(Fresh(source), events + more).releases[name] == Run(Fresh(source), events).releases[name]
  {
    hide Next, Fresh;
    if more == [] {
      assert events + more == events;
    } else {
      var n := |more| - 1;
      ReleasesAreImmutable(source, events, more[..n], name);
      assert (events + more)[..|events + more| - 1] == events + more[..n];
      assert (events + more)[|events + more| - 1] == more[n];
      ReleaseStays(source, events + more[..n], more[n], name);
    }
  }

  lemma ReleaseStays(source: Values, events: seq<Event>, e: Event, name: Digest)
    requires name in Run(Fresh(source), events).releases
    ensures var s := Run(Fresh(source), events);
            && name in Next(s, e).releases
            && Next(s, e).releases[name] == s.releases[name]
  {
    RunKeepsInv(source, events);
    hide Run, PreparerStep, PreparerInv, AllComplete, NameOf, PackageOf;
    var s := Run(Fresh(source), events);
    if e.Step? && e.id in s.preparers {
      OwnStep(s.source, s.lock, StageOf(s, e.id), s.releases, e.id, s.preparers[e.id], e.effect);
    }
  }

  /** A preparer that returns a directory returns the complete package of what it read. */
  lemma ReturnedPackageIsPublished(source: Values, events: seq<Event>, id: nat)
    requires var s := Run(Fresh(source), events);
             && id in s.preparers
             && s.preparers[id].pc in {Ended(Returned), Ended(Existing)}
    ensures var s := Run(Fresh(source), events); var i := s.preparers[id].inputs;
            NameOf(i) in s.releases && s.releases[NameOf(i)] == PackageOf(i)
  {
    RunKeepsInv(source, events);
    hide Run, Staged;
    var s := Run(Fresh(source), events);
    var i := s.preparers[id].inputs;
    assert PreparerInv(s.lock, StageOf(s, id), s.releases, id, s.preparers[id]);
    StagedIsThePackage(i);
    NameDeterminesPackage(NameOf(i), s.releases[NameOf(i)], PackageOf(i));
  }

  /** At most one preparer works in the output directory, and the name it renames to is free. */
  lemma OneWorks(source: Values, events: seq<Event>, a: nat, b: nat)
    requires var s := Run(Fresh(source), events);
             a in s.preparers && b in s.preparers && Critical(s.preparers[a].pc) && Critical(s.preparers[b].pc)
    ensures a == b
    ensures var s := Run(Fresh(source), events); s.preparers[a].pc.Renaming? ==>
              NameOf(s.preparers[a].inputs) !in s.releases
  {
    RunKeepsInv(source, events);
    hide Run, NameOf, Staged;
    var s := Run(Fresh(source), events);
    assert PreparerInv(s.lock, StageOf(s, a), s.releases, a, s.preparers[a]);
    assert PreparerInv(s.lock, StageOf(s, b), s.releases, b, s.preparers[b]);
  }

  /** The directory as it is, with one preparer at `pc`. */
  function Only(s: State, lock: Option<nat>, id: nat, i: Inputs, pc: Pc): State {
    s.(lock := lock, preparers := s.preparers[id := Preparer(i, pc)])
  }

  lemma QuietStep(s: State, lock: Option<nat>, id: nat, i: Inputs, pc: Pc, after: Option<nat>, next: Pc)
    requires PreparerStep(s.source, lock, StageOf(s, id), s.releases, id, Preparer(i, pc), Done)
             == Outcome(after, StageOf(s, id), s.releases, Preparer(i, next))
    ensures Next(Only(s, lock, id, i, pc), Step(id, Done)) == Only(s, after, id, i, next)
  {
    hide PreparerStep;
    assert StageOf(Only(s, lock, id, i, pc), id) == StageOf(s, id);
    assert id !in s.stages ==> s.stages - {id} == s.stages;
  }

  /** The steps of a preparer that finds its package published. */
  lemma QuietSteps(s: State, id: nat, i: Inputs)
    requires s.lock.None? && Matches(s.releases, i) && s.source == i.values
    ensures var stage := StageOf(s, id);
            && PreparerStep(s.source, None, stage, s.releases, id, Preparer(i, Waiting), Done)
               == Outcome(Some(id), stage, s.releases, Preparer(i, Locked))
            && PreparerStep(s.source, Some(id), stage, s.releases, id, Preparer(i, Locked), Done)
               == Outcome(Some(id), stage, s.releases, Preparer(i, Checking))
            && PreparerStep(s.source, Some(id), stage, s.releases, id, Preparer(i, Checking), Done)
               == Outcome(Some(id), stage, s.releases, Preparer(i, Unlocking(Existing)))
            && PreparerStep(s.source, Some(id), stage, s.releases, id, Preparer(i, Unlocking(Existing)), Done)
               == Outcome(None, stage, s.releases, Preparer(i, Ended(Existing)))
  {
  }

  lemma PublishedMatches(source: Values, events: seq<Event>, i: Inputs)
    requires NameOf(i) in Run(Fresh(source), events).releases
    ensures Matches(Run(Fresh(source), events).releases, i)
  {
    ReleasesAreComplete(source, events, NameOf(i));
    hide Run;
    StagedIsThePackage(i);
    NameDeterminesPackage(NameOf(i), Run(Fresh(source), events).releases[NameOf(i)], PackageOf(i));
  }

  /**
   Preparing again from unchanged inputs, alone and without a failing step, returns the
   existing release and changes nothing in the output directory.
   */
  lemma PreparingAgainReturnsIt(source: Values, events: seq<Event>, id: nat, i: Inputs)
    requires var s := Run(Fresh(source), events);
             && s.lock.None? && id !in s.preparers && NameOf(i) in s.releases
             && s.source == i.values
    ensures var s := Run(Fresh(source), events);
            Run(s, [Spawn(id, i), Step(id, Done), Step(id, Done), Step(id, Done), Step(id, Done)]) ==
              Only(s, None, id, i, Ended(Existing))
  {
    var s := Run(Fresh(source), events);
    PublishedMatches(source, events, i);
    QuietSteps(s, id, i);
    assert Next(s, Spawn(id, i)) == Only(s, None, id, i, Waiting);
    hide *;
    FiveEvents(s, Spawn(id, i), Step(id, Done));
    QuietStep(s, None, id, i, Waiting, Some(id), Locked);
    QuietStep(s, Some(id), id, i, Locked, Some(id), Checking);
    QuietStep(s, Some(id), id, i, Checking, Some(id), Unlocking(Existing));
    QuietStep(s, Some(id), id, i, Unlocking(Existing), None, Ended(Existing));
  }

  lemma FiveEvents(s: State, e: Event, f: Event)
    ensures Run(s, [e, f, f, f, f]) == Next(Next(Next(Next(Next(s, e), f), f), f), f)
  {
    hide Next;
    assert [e, f, f, f, f][..4] == [e, f, f, f] && [e, f, f, f][..3] == [e, f, f] && [e, f, f][..2] == [e, f]
           && [e, f][..1] == [e] && [e][..0] == [];
    assert Run(s, []) == s;
    assert Run(s, [e]) == Next(s, e);
    assert Run(s, [e, f]) == Next(Next(s, e), f);
    assert Run(s, [e, f, f]) == Next(Next(Next(s, e), f), f);
    assert Run(s, [e, f, f, f]) == Next(Next(Next(Next(s, e), f), f), f);
  }

  // ---------------------------------------------------------------- preparing for the first time

  /** The state after `n` steps of one preparer, all of which work. */
  ghost function Stepped(s: State, id: nat, n: nat): State {
    if n == 0 then s else Next(Stepped(s, id, n - 1), Step(id, Done))
  }

  function Steps(id: nat, n: nat): seq<Event> {
    seq(n, _ => Step(id, Done))
  }

  lemma {:induction false} StepsRun(s: State, e: Event, id: nat, n: nat)
    ensures Run(s, [e] + Steps(id, n)) == Stepped(Next(s, e), id, n)
  {
    hide Next;
    var events := [e] + Steps(id, n);
    if n == 0 {
      assert events == [e] && [e][..0] == [];
      assert Run(s, []) == s;
    } else {
      StepsRun(s, e, id, n - 1);
      assert events[..n] == [e] + Steps(id, n - 1) && events[n] == Step(id, Done);
    }
  }

  lemma StepOf(s: State, id: nat, o: Outcome)
    ensures Next(After(s, id, o), Step(id, Done)) ==
              After(s, id, PreparerStep(s.source, o.lock, o.stage, o.releases, id, o.me, Done))
  {
    hide PreparerStep;
    assert StageOf(After(s, id, o), id) == o.stage;
    var after := PreparerStep(s.source, o.lock, o.stage, o.releases, id, o.me, Done);
    assert After(s, id, o).preparers[id := after.me] == s.preparers[id := after.me];
  }

  /** Where a first preparer is after `n` of its steps. */
  ghost function Progress(stage: Option<Directory>, releases: Releases, id: nat, i: Inputs, n: nat): Outcome {
    var package := releases[NameOf(i) := PackageOf(i)];
    if n == 0 then Outcome(None, stage, releases, Preparer(i, Waiting))
    else if n == 1 then Outcome(Some(id), stage, releases, Preparer(i, Locked))
    else if n <= 7 then Outcome(Some(id), Some(Staged(i, n - 2)), releases, Preparer(i, Staging(n - 2)))
    else if n == 8 then Outcome(Some(id), Some(Staged(i, |FILES|)), releases, Preparer(i, Sealing))
    else if n == 9 then Outcome(Some(id), Some(Staged(i, |FILES|)), releases, Preparer(i, Renaming))
    else if n == 10 then Outcome(Some(id), None, package, Preparer(i, Unlocking(Returned)))
    else if n == 11 then Outcome(None, None, package, Preparer(i, Verifying))
    else Outcome(None, None, package, Preparer(i, Ended(Returned)))
  }

  lemma NextProgress(source: Values, stage: Option<Directory>, releases: Releases, id: nat, i: Inputs, n: nat)
    requires source == i.values && NameOf(i) !in releases && n < 12
    ensures var o := Progress(stage, releases, id, i, n);
            PreparerStep(source, o.lock, o.stage, o.releases, id, o.me, Done) == Progress(stage, releases, id, i, n + 1)
  {
    StagedIsThePackage(i);
    hide Staged, PackageOf, NameOf, ManifestOf, Complete;
    ThePackageMatches(releases, i);
  }

  lemma ThePackageMatches(releases: Releases, i: Inputs)
    ensures Matches(releases[NameOf(i) := PackageOf(i)], i)
  {
    StagedIsThePackage(i);
    hide Complete, ManifestOf;
  }

  lemma {:induction false} Progresses(s: State, id: nat, i: Inputs, n: nat)
    requires s.source == i.values && NameOf(i) !in s.releases && n <= 12
    ensures var start := Progress(StageOf(s, id), s.releases, id, i, 0);
            Stepped(After(s, id, start), id, n) == After(s, id, Progress(StageOf(s, id), s.releases, id, i, n))
  {
    hide Next, PreparerStep, Progress, After, NameOf;
    if n > 0 {
      Progresses(s, id, i, n - 1);
      StepOf(s, id, Progress(StageOf(s, id), s.releases, id, i, n - 1));
      NextProgress(s.source, StageOf(s, id), s.releases, id, i, n - 1);
    }
  }

  /**
   Preparing for the first time, alone, from an unchanged source and without a failing step,
   publishes the package under its name and returns it: the lock is free again, the stage is
   gone and the other releases are as they were.
   */
  lemma FirstPreparePublishes(source: Values, events: seq<Event>, id: nat, i: Inputs)
    requires var s := Run(Fresh(source), events);
             && s.lock.None? && id !in s.preparers && NameOf(i) !in s.releases && s.source == i.values
    ensures var s := Run(Fresh(source), events);
            Run(s, [Spawn(id, i)] + Steps(id, 12)) ==
              State(s.source, None, s.stages - {id}, s.releases[NameOf(i) := PackageOf(i)],
                    s.preparers[id := Preparer(i, Ended(Returned))])
  {
    var s := Run(Fresh(source), events);
    hide Run, NameOf, PackageOf, PreparerStep;
    StepsRun(s, Spawn(id, i), id, 12);
    Progresses(s, id, i, 12);
    assert Next(s, Spawn(id, i)) == After(s, id, Progress(StageOf(s, id), s.releases, id, i, 0));
  }

  // ---------------------------------------------------------------- preparing in vain

  /** A preparer that will not return a directory. */
  predicate Doomed(pc: Pc) {
    pc == Cleaning || pc == Unlocking(Failed) || pc in {Ended(Failed), Ended(Busy), Ended(Crashed)}
  }

  /** A step at which something can go wrong: all but looking for the name and going on to the last checks. */
  ghost predicate Fallible(s: State, id: nat)
    requires id in s.preparers
  {
    var me := s.preparers[id];
    match me.pc
    case Locked => NameOf(me.inputs) !in s.releases
    case Staging(n) => n < |FILES|
    case Ended(_) => false
    case _ => true
  }

  /** A step fails, or the source is found changed before the package is renamed or returned. */
  ghost predicate GoesWrong(s: State, id: nat, effect: Effect)
    requires id in s.preparers
  {
    var me := s.preparers[id];
    (!effect.Done? && Fallible(s, id)) || ((me.pc.Sealing? || me.pc.Checking?) && s.source != me.inputs.values)
  }

  lemma WrongStep(s: State, id: nat, effect: Effect)
    requires id in s.preparers && GoesWrong(s, id, effect)
    ensures id in Next(s, Step(id, effect)).preparers && Doomed(Next(s, Step(id, effect)).preparers[id].pc)
  {
    hide NameOf, Matches, Staged;
  }

  /** Whatever happens next, it stays in vain, and its own steps leave the releases alone. */
  lemma DoomedStep(s: State, id: nat, e: Event)
    requires id in s.preparers && Doomed(s.preparers[id].pc)
    ensures id in Next(s, e).preparers && Doomed(Next(s, e).preparers[id].pc)
    ensures e.Step? && e.id == id ==> Next(s, e).releases == s.releases
  {
    hide NameOf, Matches, Staged;
  }

  lemma WrongStepPublishesNothing(s: State, id: nat, effect: Effect)
    requires id in s.preparers && (!s.preparers[id].pc.Renaming? || effect.NotDone?)
    ensures Next(s, Step(id, effect)).releases == s.releases
  {
    hide NameOf, Matches, Staged;
  }

  /** Events of one preparer only. */
  ghost predicate OnlyBy(id: nat, events: seq<Event>) {
    forall k :: 0 <= k < |events| ==> (events[k].Step? || events[k].Crash?) && events[k].id == id
  }

  lemma {:induction false} DoomedRun(s: State, id: nat, events: seq<Event>)
    requires id in s.preparers && Doomed(s.preparers[id].pc)
    ensures id in Run(s, events).preparers && Doomed(Run(s, events).preparers[id].pc)
    ensures OnlyBy(id, events) ==> Run(s, events).releases == s.releases
  {
    if events != [] {
      var n := |events| - 1;
      hide Next, Doomed;
      assert OnlyBy(id, events) ==> OnlyBy(id, events[..n]);
      DoomedRun(s, id, events[..n]);
      DoomedStep(Run(s, events[..n]), id, events[n]);
      if events[n].Crash? { CrashLeavesReleases(Run(s, events[..n]), events[n]); }
    }
  }

  lemma CrashLeavesReleases(s: State, e: Event)
    requires e.Crash?
    ensures Next(s, e).releases == s.releases
  {
  }

  lemma {:induction false} RunAppend(s: State, a: seq<Event>, b: seq<Event>)
    ensures Run(s, a + b) == Run(Run(s, a), b)
  {
    hide Next;
    if b == [] {
      assert a + b == a;
    } else {
      var n := |b| - 1;
      RunAppend(s, a, b[..n]);
      assert (a + b)[..|a + b| - 1] == a + b[..n] && (a + b)[|a + b| - 1] == b[n];
    }
  }

  lemma RunOne(s: State, e: Event)
    ensures Run(s, [e]) == Next(s, e)
  {
    hide Next;
    assert [e][..0] == [];
    assert Run(s, []) == s;
  }

  /**
   A preparer one of whose steps fails, or that finds the source changed, never returns a
   directory, whatever happens afterwards; and unless it was renaming the package just then,
   neither that step nor a later one of its own changes the releases.
   */
  lemma APrepareInVain(source: Values, events: seq<Event>, id: nat, effect: Effect, more: seq<Event>)
    requires var s := Run(Fresh(source), events); id in s.preparers && GoesWrong(s, id, effect)
    ensures var s := Run(Fresh(source), events); var after := Run(s, [Step(id, effect)] + more);
            && id in after.preparers && Doomed(after.preparers[id].pc)
            && ((!s.preparers[id].pc.Renaming? || effect.NotDone?) && OnlyBy(id, more) ==>
                  after.releases == s.releases)
  {
    hide *;
    var s := Run(Fresh(source), events);
    RunAppend(s, [Step(id, effect)], more);
    RunOne(s, Step(id, effect));
    WrongStep(s, id, effect);
    if !s.preparers[id].pc.Renaming? || effect.NotDone? { WrongStepPublishesNothing(s, id, effect); }
    DoomedRun(Next(s, Step(id, effect)), id, more);
  }

  /** What a failed preparer left is cleaned up: the next two steps that work remove its stage and its lock. */
  lemma AFailedPrepareCleansUp(source: Values, events: seq<Event>, id: nat)
    requires var s := Run(Fresh(source), events); id in s.preparers && s.preparers[id].pc.Cleaning?
    ensures var s := Run(Fresh(source), events);
            Run(s, [Step(id, Done), Step(id, Done)]) ==
              State(s.source, None, s.stages - {id}, s.releases,
                    s.preparers[id := Preparer(s.preparers[id].inputs, Ended(Failed))])
  {
    var s := Run(Fresh(source), events);
    RunKeepsInv(source, events);
    hide Run, NameOf, Matches, Staged, AllComplete;
    assert PreparerInv(s.lock, StageOf(s, id), s.releases, id, s.preparers[id]);
    var i, e := s.preparers[id].inputs, Step(id, Done);
    assert [e, e] == [e] + [e];
    RunAppend(s, [e], [e]);
    RunOne(s, e);
    RunOne(Next(s, e), e);
    var cleaned := Outcome(s.lock, None, s.releases, Preparer(i, Unlocking(Failed)));
    assert Next(s, e) == After(s, id, cleaned);
    StepOf(s, id, cleaned);
  }

  /** A preparer that finds the directory locked ends at once and changes nothing. */
  lemma ABusyDirectoryIsLeftAlone(s: State, id: nat, effect: Effect)
    requires id in s.preparers && s.preparers[id].pc.Waiting? && s.lock.Some?
    ensures Next(s, Step(id, effect)) == s.(preparers := s.preparers[id := s.preparers[id].(pc := Ended(Busy))])
  {
    assert StageOf(s, id).Some? ==> s.stages[id := s.stages[id]] == s.stages;
    assert StageOf(s, id).None? ==> s.stages - {id} == s.stages;
    hide NameOf, Matches, Staged;
  }
}
