/**
 The two ends of the FM capability manifest: the publisher that projects self-test
 evidence into records (deploy/publish-provider-qualification.py, `fm_records`) and
 the configurator that decides whether a manifest authorises a cutover
 (deploy/configure-fm-primary.py, `validate_manifest`).
 */
module Qualification {
  import opened Wrappers
  import opened Json

  predicate IsCapability(k: Key) {
    k.Text? || k.Streaming? || k.StructuredOutput? || k.Tools? || k.Vision? || k.Ocr?
  }

  predicate IsIsolation(k: Key) {
    k.EnvironmentCleared? || k.AbsoluteNoShell? || k.TreeContained? || k.PrivateState? || k.LoopbackOnly?
    || k.SandboxAttested?
  }

  predicate IsRequiredHash(k: Key) {
    k.AbbeyBinary? || k.ProviderBinary? || k.OsSha? || k.ToolSchema?
  }

  predicate IsOptionalHash(k: Key) {
    k.ModelSha? || k.SandboxSha?
  }

  predicate HasRequired(keys: set<Key>) {
    AbbeyBinary in keys && ProviderBinary in keys && OsSha in keys && ToolSchema in keys
  }

  /** Every required digest, and no key but those and the optional ones. */
  predicate HashKeys(keys: set<Key>) {
    HasRequired(keys) && forall k :: k in keys ==> IsRequiredHash(k) || IsOptionalHash(k)
  }

  predicate IsRecordKey(k: Key) {
    k.Version? || k.FixtureVersion? || k.ProviderId? || k.ProviderClass? || k.IdentityKey?
    || k.DeclaredCapabilities? || k.IsolationCapabilities? || k.QualificationStatus?
  }

  predicate IsMode(v: Value) {
    v == Constant(System) || v == Constant(Pcc)
  }

  predicate IsText(v: Value) {
    v.Str? || v.Constant?
  }

  // ---------------------------------------------------------------- the publisher

  predicate KnownStatus(v: Value) {
    v.Constant? && (v.word.Passing? || v.word.Failing? || v.word.Unsupported? || v.word.Skipped?)
  }

  predicate ValidCapabilities(caps: Value) {
    && SoundCapability(caps, Text) && SoundCapability(caps, Streaming) && SoundCapability(caps, StructuredOutput)
    && SoundCapability(caps, Tools) && SoundCapability(caps, Vision) && SoundCapability(caps, Ocr)
  }

  predicate SoundCapability(caps: Value, k: Key) {
    Get(caps, k).Obj? && KnownStatus(Get(Get(caps, k), Status))
  }

  predicate Passes(caps: Value, k: Key) {
    Get(Get(caps, k), Status) == Constant(Passing)
  }

  predicate PassesRequired(caps: Value) {
    Passes(caps, Text) && Passes(caps, StructuredOutput) && Passes(caps, Tools)
  }

  predicate BoundHashes(hashes: Value, binarySha: Value) {
    && hashes.Obj? && HashKeys(hashes.fields.Keys)
    && Get(hashes, AbbeyBinary) == binarySha
    && Get(hashes, ModelSha) == Null && Get(hashes, SandboxSha) == Null
    && (forall k :: k in hashes.fields && !(IsOptionalHash(k) && hashes.fields[k] == Null) ==>
          IsSha256(hashes.fields[k]))
  }

  /** The identity of the first system entry, or null. */
  function SystemIdentity(modes: seq<Value>): Value {
    if modes == [] then Null
    else if Get(modes[0], IdentityKey).Obj? && Get(Get(modes[0], IdentityKey), Mode) == Constant(System) then
              Get(modes[0], IdentityKey)
    else SystemIdentity(modes[1..])
  }

  predicate ServerConfigured(report: Value) {
    Get(Get(report, FmServer), Configured) == Bool(true)
  }

  predicate SoundServer(report: Value, modes: seq<Value>) {
    var server := Get(report, FmServer);
    var caps := Get(server, Capabilities);
    Get(server, IdentityKey) == SystemIdentity(modes) && ValidCapabilities(caps) && Passes(caps, Text)
    && Passes(caps, Streaming)
  }

  function ModeOf(entry: Value): Value {
    Get(Get(entry, IdentityKey), Mode)
  }

  /** The evidence checks on one mode entry; `osDigest` hashes an OS build string. */
  predicate SoundEntry(entry: Value, hashes: Value, binarySha: Value, osDigest: string -> Value) {
    var identity := Get(entry, IdentityKey);
    var caps := Get(entry, Capabilities);
    && Get(entry, Configured) == Bool(true)
    && identity.Obj? && IsMode(ModeOf(entry))
    && Get(identity, AbbeyBinary) == binarySha && Get(identity, FixtureVersion) == Constant(FixturesV1)
    && Get(identity, CliSha) == Get(hashes, ProviderBinary)
    && Get(identity, OsBuild).Str? && osDigest(Get(identity, OsBuild).s) == Get(hashes, OsSha)
    && ValidCapabilities(caps)
    && (Passes(caps, Tools) ==> Get(Get(caps, Tools), ToolResultMarker) == Constant(ContinuationV1))
    && (Passes(caps, Vision) || Passes(caps, Ocr) ==> Get(entry, VisionIdentity) == identity)
  }

  function ProviderFor(entry: Value): Value {
    if ModeOf(entry) == Constant(System) then Constant(FoundationModels) else Constant(FoundationModelsPcc)
  }

  /** The declared capabilities of an entry that declares streaming as `streams`. */
  ghost predicate Declares(v: Value, caps: Value, streams: bool) {
    && CapabilityFlags(v)
    && v.fields[Text] == Bool(Passes(caps, Text)) && v.fields[Streaming] == Bool(streams)
    && v.fields[StructuredOutput] == Bool(Passes(caps, StructuredOutput))
       && v.fields[Tools] == Bool(Passes(caps, Tools))
    && v.fields[Vision] == Bool(Passes(caps, Vision)) && v.fields[Ocr] == Bool(Passes(caps, Ocr))
  }

  ghost predicate DeclaresNoIsolation(v: Value) {
    IsolationFlags(v) && forall k :: k in v.fields ==> v.fields[k] == Bool(false)
  }

  /** The one record that represents an entry. */
  ghost predicate RecordOf(record: Value, entry: Value, hashes: Value, streams: bool) {
    && record.Obj? && (forall k :: k in record.fields ==> IsRecordKey(k))
    && Get(record, Version) == Int(2) && Get(record, FixtureVersion) == Constant(FixturesV1)
    && Get(record, ProviderId) == ProviderFor(entry) && Get(record, ProviderClass) == Constant(OsManagedLocal)
    && Get(record, IdentityKey) == hashes
    && Declares(Get(record, DeclaredCapabilities), Get(entry, Capabilities), streams)
    && DeclaresNoIsolation(Get(record, IsolationCapabilities))
    && Get(record, QualificationStatus) == StatusFor(entry)
  }

  method DeclaredOf(caps: Value) returns (v: Value)
    ensures Declares(v, caps, Passes(caps, Streaming))
  {
    hide Passes;
    v := Obj(map[Text := Bool(Passes(caps, Text)), Streaming := Bool(Passes(caps, Streaming)),
                 StructuredOutput := Bool(Passes(caps, StructuredOutput)), Tools := Bool(Passes(caps, Tools)),
                 Vision := Bool(Passes(caps, Vision)), Ocr := Bool(Passes(caps, Ocr))]);
  }

  method NoIsolation() returns (v: Value)
    ensures DeclaresNoIsolation(v)
  {
    v := Obj(map[EnvironmentCleared := Bool(false), AbsoluteNoShell := Bool(false), TreeContained := Bool(false),
                 PrivateState := Bool(false), LoopbackOnly := Bool(false), SandboxAttested := Bool(false)]);
  }

  method ProjectEntry(entry: Value, hashes: Value) returns (record: Value)
    ensures RecordOf(record, entry, hashes, Passes(Get(entry, Capabilities), Streaming))
  {
    var caps := Get(entry, Capabilities);
    hide Declares, DeclaresNoIsolation, PassesRequired;
    var declared := DeclaredOf(caps);
    var isolation := NoIsolation();
    record := Obj(map[Version := Int(2), FixtureVersion := Constant(FixturesV1), ProviderId := ProviderFor(entry),
                      ProviderClass := Constant(OsManagedLocal), IdentityKey := hashes,
                      DeclaredCapabilities := declared, IsolationCapabilities := isolation,
                      QualificationStatus := StatusFor(entry)]);
  }

  lemma DeclaringStreaming(declared: Value, caps: Value, streams: bool)
    requires Declares(declared, caps, streams)
    ensures Declares(Obj(declared.fields[Streaming := Bool(true)]), caps, true)
  {
  }

  /** `record["declared_capabilities"]["streaming"] = True`. */
  method MarkStreaming(record: Value, ghost entry: Value, ghost hashes: Value, ghost streams: bool)
    returns (marked: Value)
    requires RecordOf(record, entry, hashes, streams)
    ensures RecordOf(marked, entry, hashes, true)
  {
    RecordDeclares(record, entry, hashes, streams);
    var declared := record.fields[DeclaredCapabilities];
    marked := Obj(record.fields[DeclaredCapabilities := Obj(declared.fields[Streaming := Bool(true)])]);
    MarkedRecord(record, entry, hashes, streams);
  }

  lemma MarkedRecord(record: Value, entry: Value, hashes: Value, streams: bool)
    requires RecordOf(record, entry, hashes, streams)
    ensures record.Obj? && DeclaredCapabilities in record.fields && record.fields[DeclaredCapabilities].Obj?
    ensures var declared := record.fields[DeclaredCapabilities];
            RecordOf(Obj(record.fields[DeclaredCapabilities := Obj(declared.fields[Streaming := Bool(true)])]),
                     entry, hashes, true)
  {
    RecordDeclares(record, entry, hashes, streams);
    var declared := record.fields[DeclaredCapabilities];
    var marked := Obj(record.fields[DeclaredCapabilities := Obj(declared.fields[Streaming := Bool(true)])]);
    DeclaringStreaming(declared, Get(entry, Capabilities), streams) by { DeclaredIsGot(record); }
    DeclaredIsGot(marked);
    DeclaredAlone(record, marked, entry, hashes, streams);
  }

  lemma DeclaredIsGot(record: Value)
    requires record.Obj? && DeclaredCapabilities in record.fields
    ensures Get(record, DeclaredCapabilities) == record.fields[DeclaredCapabilities]
  {
  }

  /** A record stays one of the entry when only its declaration changes. */
  lemma DeclaredAlone(record: Value, marked: Value, entry: Value, hashes: Value, streams: bool)
    requires RecordOf(record, entry, hashes, streams) && marked.Obj? && marked.fields.Keys == record.fields.Keys
    requires forall k :: k in record.fields && k != DeclaredCapabilities ==> marked.fields[k] == record.fields[k]
    requires Declares(Get(marked, DeclaredCapabilities), Get(entry, Capabilities), true)
    ensures RecordOf(marked, entry, hashes, true)
  {
    hide Declares, DeclaresNoIsolation, ProviderFor, StatusFor, IsRecordKey, Get;
    OtherKeysKept(record, marked, Version);
    OtherKeysKept(record, marked, FixtureVersion);
    OtherKeysKept(record, marked, ProviderId);
    OtherKeysKept(record, marked, ProviderClass);
    OtherKeysKept(record, marked, IdentityKey);
    OtherKeysKept(record, marked, IsolationCapabilities);
    OtherKeysKept(record, marked, QualificationStatus);
  }

  lemma OtherKeysKept(record: Value, marked: Value, key: Key)
    requires record.Obj? && marked.Obj? && marked.fields.Keys == record.fields.Keys && key != DeclaredCapabilities
    requires forall k :: k in record.fields && k != DeclaredCapabilities ==> marked.fields[k] == record.fields[k]
    ensures Get(marked, key) == Get(record, key)
  {
  }

  lemma DeclaredIsAKey()
    ensures IsRecordKey(DeclaredCapabilities)
  {
  }

  lemma RecordDeclares(record: Value, entry: Value, hashes: Value, streams: bool)
    requires RecordOf(record, entry, hashes, streams)
    ensures record.Obj? && DeclaredCapabilities in record.fields && record.fields[DeclaredCapabilities].Obj?
  {
  }

  /** An entry's own streaming evidence, or the server's when the entry is the system mode. */
  predicate Streams(report: Value, entry: Value) {
    Passes(Get(entry, Capabilities), Streaming) || (ServerConfigured(report) && ModeOf(entry) == Constant(System))
  }

  /** `records` are the publisher's projection of the evidence, mode by mode. */
  ghost predicate Projection(report: Value, records: seq<Value>) {
    && |records| == |Modes(report)|
    && forall i :: 0 <= i < |records| ==>
         RecordOf(records[i], Modes(report)[i], Get(report, FmManifestIdentity), Streams(report, Modes(report)[i]))
  }

  function Modes(report: Value): seq<Value> {
    if Get(report, FmCliModes).Arr? then Get(report, FmCliModes).items else []
  }

  /** What evidence the publisher accepts. */
  ghost predicate Publishable(report: Value, binarySha: Value, osDigest: string -> Value) {
    var modes := Modes(report);
    var hashes := Get(report, FmManifestIdentity);
    && modes != [] && modes[0] == Get(report, FmCli) && modes[0].Obj? && BoundHashes(hashes, binarySha)
    && (ServerConfigured(report) ==> SoundServer(report, modes) && HasSystem(modes))
    && SoundModes(modes, hashes, binarySha, osDigest) && SomeQualifies(modes)
  }

  ghost predicate SoundModes(modes: seq<Value>, hashes: Value, binarySha: Value, osDigest: string -> Value) {
    && (forall i :: 0 <= i < |modes| ==> SoundEntry(modes[i], hashes, binarySha, osDigest))
    && (forall i, j :: 0 <= i < j < |modes| ==> ModeOf(modes[i]) != ModeOf(modes[j]))
  }

  ghost predicate SomeQualifies(modes: seq<Value>) {
    exists i :: 0 <= i < |modes| && PassesRequired(Get(modes[i], Capabilities))
  }

  ghost predicate HasSystem(modes: seq<Value>) {
    exists i :: 0 <= i < |modes| && ModeOf(modes[i]) == Constant(System)
  }

  datatype PublicationError = NoEvidence | FirstMode | UnboundIdentity | ServerEvidence | MalformedMode | DuplicateMode
                            | NoSystemMode | NothingQualified

  /** One record per mode, each declaring its own streaming evidence. */
  ghost predicate OwnRecords(modes: seq<Value>, hashes: Value, records: seq<Value>) {
    && |records| == |modes|
    && forall i :: 0 <= i < |records| ==>
         RecordOf(records[i], modes[i], hashes, Passes(Get(modes[i], Capabilities), Streaming))
  }

  predicate PlainModes(modes: seq<Value>) {
    && (forall j :: 0 <= j < |modes| ==> IsMode(ModeOf(modes[j])))
    && (forall i, j :: 0 <= i < j < |modes| ==> ModeOf(modes[i]) != ModeOf(modes[j]))
  }

  method ProjectModes(modes: seq<Value>, hashes: Value, binarySha: Value, osDigest: string -> Value)
    returns (r: Result<seq<Value>, PublicationError>)
    ensures r.Success? <==> SoundModes(modes, hashes, binarySha, osDigest)
    ensures r.Success? ==> OwnRecords(modes, hashes, r.value) && PlainModes(modes)
  {
    hide SoundEntry, RecordOf, ModeOf, Get, IsMode, Passes;
    var records: seq<Value> := [];
    var seen: set<Value> := {};
    for i := 0 to |modes|
      invariant |records| == i
      invariant forall j :: 0 <= j < i ==> SoundEntry(modes[j], hashes, binarySha, osDigest)
      invariant forall j :: 0 <= j < i ==>
                  RecordOf(records[j], modes[j], hashes, Passes(Get(modes[j], Capabilities), Streaming))
      invariant forall j :: 0 <= j < i ==> ModeOf(modes[j]) in seen && IsMode(ModeOf(modes[j]))
      invariant forall v :: v in seen ==> exists j :: 0 <= j < i && ModeOf(modes[j]) == v
      invariant forall j, k :: 0 <= j < k < i ==> ModeOf(modes[j]) != ModeOf(modes[k])
    {
      if !SoundEntry(modes[i], hashes, binarySha, osDigest) { return Failure(MalformedMode); }
      SoundEntryHasMode(modes[i], hashes, binarySha, osDigest);
      if ModeOf(modes[i]) in seen { return Failure(DuplicateMode); }
      seen := seen + {ModeOf(modes[i])};
      var record := ProjectEntry(modes[i], hashes);
      records := records + [record];
    }
    return Success(records);
  }

  /** Each record's status says whether its entry passes the required capabilities. */
  ghost predicate StatusesMatch(modes: seq<Value>, records: seq<Value>) {
    && |records| == |modes|
    && forall i :: 0 <= i < |modes| ==> Get(records[i], QualificationStatus) == StatusFor(modes[i])
  }

  function StatusFor(entry: Value): Value {
    if PassesRequired(Get(entry, Capabilities)) then Constant(Qualified) else Constant(Failed)
  }

  lemma OwnStatuses(modes: seq<Value>, hashes: Value, records: seq<Value>)
    requires OwnRecords(modes, hashes, records)
    ensures StatusesMatch(modes, records)
  {
  }

  lemma ProjectedStatuses(report: Value, records: seq<Value>)
    requires Projection(report, records)
    ensures StatusesMatch(Modes(report), records)
  {
  }

  method AnyQualified(modes: seq<Value>, records: seq<Value>) returns (some: bool)
    requires StatusesMatch(modes, records)
    ensures some <==> SomeQualifies(modes)
  {
    for i := 0 to |records|
      invariant forall j :: 0 <= j < i ==> !PassesRequired(Get(modes[j], Capabilities))
    {
      if Get(records[i], QualificationStatus) == Constant(Qualified) { return true; }
    }
    return false;
  }

  /** The streaming flag the server's evidence lends to the system record. */
  method LendStreaming(report: Value, modes: seq<Value>, hashes: Value, own: seq<Value>)
    returns (r: Result<seq<Value>, PublicationError>)
    requires modes == Modes(report) && hashes == Get(report, FmManifestIdentity) && OwnRecords(modes, hashes, own)
    requires PlainModes(modes) && ServerConfigured(report)
    ensures r.Success? <==> HasSystem(modes)
    ensures r.Success? ==> Projection(report, r.value)
  {
    var at := SystemRecord(modes, own);
    if at.None? { return Failure(NoSystemMode); }
    var k := at.value;
    var marked := MarkStreaming(own[k], modes[k], hashes, Passes(Get(modes[k], Capabilities), Streaming));
    var records := own[k := marked];
    forall i | 0 <= i < |records| ensures RecordOf(records[i], modes[i], hashes, Streams(report, modes[i])) {
      if i != k { assert ModeOf(modes[i]) != ModeOf(modes[k]); }
    }
    return Success(records);
  }

  /** `fm_records`: it publishes exactly the acceptable evidence, one record per mode, in order. */
  method FmRecords(report: Value, binarySha: Value, osDigest: string -> Value)
    returns (r: Result<seq<Value>, PublicationError>)
    ensures r.Success? <==> Publishable(report, binarySha, osDigest)
    ensures r.Success? ==> Projection(report, r.value)
  {
    hide BoundHashes, SoundServer, SoundEntry, SoundModes, HasSystem, SomeQualifies, RecordOf;
    var modes := Modes(report);
    if modes == [] { return Failure(NoEvidence); }
    if modes[0] != Get(report, FmCli) { return Failure(FirstMode); }
    var hashes := Get(report, FmManifestIdentity);
    if !BoundHashes(hashes, binarySha) { return Failure(UnboundIdentity); }
    if !modes[0].Obj? { return Failure(FirstMode); }
    if ServerConfigured(report) && !SoundServer(report, modes) { return Failure(ServerEvidence); }
    var records :- ProjectModes(modes, hashes, binarySha, osDigest);
    if ServerConfigured(report) {
      records :- LendStreaming(report, modes, hashes, records);
    }
    if ServerConfigured(report) { ProjectedStatuses(report, records); } else { OwnStatuses(modes, hashes, records); }
    var qualified := AnyQualified(modes, records);
    if !qualified { return Failure(NothingQualified); }
    return Success(records);
  }

  /** The first record of the system provider, which is the record of the system mode. */
  method SystemRecord(modes: seq<Value>, records: seq<Value>) returns (at: Option<nat>)
    requires |records| == |modes|
    requires forall j :: 0 <= j < |modes| ==>
               IsMode(ModeOf(modes[j])) && Get(records[j], ProviderId) == ProviderFor(modes[j])
    ensures at.Some? ==> at.value < |modes| && ModeOf(modes[at.value]) == Constant(System)
    ensures at.None? ==> forall j :: 0 <= j < |modes| ==> ModeOf(modes[j]) != Constant(System)
  {
    for i := 0 to |records|
      invariant forall j :: 0 <= j < i ==> ModeOf(modes[j]) != Constant(System)
    {
      if Get(records[i], ProviderId) == Constant(FoundationModels) { return Some(i); }
    }
    return None;
  }

  // ---------------------------------------------------------------- the configurator

  predicate CapabilityFlags(v: Value) {
    && v.Obj? && (forall k :: k in v.fields ==> IsCapability(k) && v.fields[k].Bool?)
    && Text in v.fields && Streaming in v.fields && StructuredOutput in v.fields
    && Tools in v.fields && Vision in v.fields && Ocr in v.fields
  }

  predicate IsolationFlags(v: Value) {
    && v.Obj? && (forall k :: k in v.fields ==> IsIsolation(k) && v.fields[k].Bool?)
    && EnvironmentCleared in v.fields && AbsoluteNoShell in v.fields && TreeContained in v.fields
    && PrivateState in v.fields && LoopbackOnly in v.fields && SandboxAttested in v.fields
  }

  predicate RecordShape(record: Value) {
    && record.Obj? && (forall k :: k in record.fields ==> IsRecordKey(k))
    && Get(record, Version) == Int(2) && Get(record, FixtureVersion) == Constant(FixturesV1)
    && (Get(record, QualificationStatus) == Constant(Qualified) || Get(record, QualificationStatus) == Constant(Failed))
    && (Get(record, ProviderId) == Constant(FoundationModels)
        || Get(record, ProviderId) == Constant(FoundationModelsPcc))
    && Get(record, ProviderClass) == Constant(OsManagedLocal)
    && IdentityShape(Get(record, IdentityKey))
    && CapabilityFlags(Get(record, DeclaredCapabilities))
    && IsolationFlags(Get(record, IsolationCapabilities))
  }

  predicate IdentityShape(hashes: Value) {
    && hashes.Obj? && HashKeys(hashes.fields.Keys)
    && (forall k :: k in hashes.fields && IsRequiredHash(k) ==> IsSha256(hashes.fields[k]))
    && Get(hashes, ModelSha) == Null && Get(hashes, SandboxSha) == Null
  }

  ghost predicate ManifestShape(manifest: Value) {
    && manifest.Arr? && manifest.items != []
    && AllShaped(manifest.items) && DistinctProviders(manifest.items)
  }

  ghost predicate AllShaped(records: seq<Value>) {
    forall i :: 0 <= i < |records| ==> RecordShape(records[i])
  }

  ghost predicate DistinctProviders(records: seq<Value>) {
    forall i, j :: 0 <= i < j < |records| ==> Get(records[i], ProviderId) != Get(records[j], ProviderId)
  }

  ghost predicate SomeAuthorises(records: seq<Value>, candidate: Value, streamingRequired: bool) {
    exists i :: 0 <= i < |records| && Authorises(records[i], candidate, streamingRequired)
  }

  /** `candidate_identity`: what the candidate binary reported about itself, cross-checked with the files. */
  predicate SoundCandidate(candidate: Value, binarySha: Value, cliSha: Value) {
    && candidate.Obj? && HasRequired(candidate.fields.Keys)
    && (forall k :: k in candidate.fields ==> IsRequiredHash(k) && IsSha256(candidate.fields[k]))
    && candidate.fields[AbbeyBinary] == binarySha && candidate.fields[ProviderBinary] == cliSha
  }

  predicate Authorises(record: Value, candidate: Value, streamingRequired: bool) {
    var declared := Get(record, DeclaredCapabilities);
    && Get(record, QualificationStatus) == Constant(Qualified)
    && Get(record, IdentityKey).Obj? && candidate.Obj? && NonNull(Get(record, IdentityKey).fields) == candidate.fields
    && Get(declared, Text) == Get(declared, StructuredOutput) == Get(declared, Tools) == Bool(true)
    && (Get(record, ProviderId) != Constant(FoundationModels) || !streamingRequired
        || Get(declared, Streaming) == Bool(true))
  }

  ghost predicate ManifestAccepted(manifest: Value, candidate: Value, binarySha: Value, cliSha: Value,
                                   streamingRequired: bool) {
    && ManifestShape(manifest) && SoundCandidate(candidate, binarySha, cliSha)
    && SomeAuthorises(manifest.items, candidate, streamingRequired)
  }

  datatype ConfigError = NotAManifest | RecordIds | RecordSchema | CandidateIdentity | NoQualifiedMode

  method CheckIds(records: seq<Value>) returns (ok: bool)
    ensures ok <==> DistinctProviders(records) && forall i :: 0 <= i < |records| ==> IsText(Get(records[i], ProviderId))
  {
    var ids: set<Value> := {};
    for i := 0 to |records|
      invariant forall j :: 0 <= j < i ==> Get(records[j], ProviderId) in ids && IsText(Get(records[j], ProviderId))
      invariant forall v :: v in ids ==> exists j :: 0 <= j < i && Get(records[j], ProviderId) == v
      invariant forall j, k :: 0 <= j < k < i ==> Get(records[j], ProviderId) != Get(records[k], ProviderId)
    {
      if !IsText(Get(records[i], ProviderId)) || Get(records[i], ProviderId) in ids { return false; }
      ids := ids + {Get(records[i], ProviderId)};
    }
    return true;
  }

  method CheckShapes(records: seq<Value>) returns (ok: bool)
    ensures ok <==> AllShaped(records)
  {
    hide RecordShape;
    for i := 0 to |records|
      invariant forall j :: 0 <= j < i ==> RecordShape(records[j])
    {
      if !RecordShape(records[i]) { return false; }
    }
    return true;
  }

  method AnyAuthorises(records: seq<Value>, candidate: Value, streamingRequired: bool) returns (some: bool)
    ensures some <==> SomeAuthorises(records, candidate, streamingRequired)
  {
    hide Authorises;
    for i := 0 to |records|
      invariant forall j :: 0 <= j < i ==> !Authorises(records[j], candidate, streamingRequired)
    {
      if Authorises(records[i], candidate, streamingRequired) { return true; }
    }
    return false;
  }

  lemma ShapedRecordsNameProviders(records: seq<Value>)
    requires AllShaped(records)
    ensures forall i :: 0 <= i < |records| ==> IsText(Get(records[i], ProviderId))
  {
  }

  /** `validate_manifest` on the decoded manifest. */
  method ValidateManifest(manifest: Value, candidate: Value, binarySha: Value, cliSha: Value, streamingRequired: bool)
    returns (r: Outcome<ConfigError>)
    ensures r.Pass? <==> ManifestAccepted(manifest, candidate, binarySha, cliSha, streamingRequired)
  {
    hide RecordShape, Authorises, SoundCandidate, AllShaped, DistinctProviders, SomeAuthorises;
    if !manifest.Arr? || manifest.items == [] { return Fail(NotAManifest); }
    var ids := CheckIds(manifest.items);
    if !ids {
      if AllShaped(manifest.items) { ShapedRecordsNameProviders(manifest.items); }
      return Fail(RecordIds);
    }
    var shaped := CheckShapes(manifest.items);
    if !shaped { return Fail(RecordSchema); }
    if !SoundCandidate(candidate, binarySha, cliSha) { return Fail(CandidateIdentity); }
    var authorised := AnyAuthorises(manifest.items, candidate, streamingRequired);
    return if authorised then Pass else Fail(NoQualifiedMode);
  }

  // ---------------------------------------------------------------- agreement

  /** One published record passes every shape check of the configurator. */
  lemma ProjectedRecordHasShape(record: Value, entry: Value, hashes: Value, streams: bool, binarySha: Value)
    requires BoundHashes(hashes, binarySha) && RecordOf(record, entry, hashes, streams)
    ensures RecordShape(record)
  {
    assert IdentityShape(hashes);
    DeclaredFlags(Get(record, DeclaredCapabilities), Get(entry, Capabilities), streams);
    hide BoundHashes, IdentityShape, Declares, CapabilityFlags, IsolationFlags, IsRecordKey;
  }

  lemma DeclaredFlags(v: Value, caps: Value, streams: bool)
    requires Declares(v, caps, streams)
    ensures CapabilityFlags(v)
  {
  }

  /** A published manifest always has the shape the configurator asks for. */
  lemma PublishedManifestHasShape(report: Value, binarySha: Value, osDigest: string -> Value, records: seq<Value>)
    requires Publishable(report, binarySha, osDigest) && Projection(report, records)
    ensures ManifestShape(Arr(records))
  {
    var hashes := Get(report, FmManifestIdentity);
    ProjectionIsShaped(Modes(report), hashes, records, report, binarySha);
    ProjectionIsDistinct(Modes(report), hashes, records, report, binarySha, osDigest);
  }

  lemma ProjectionIsShaped(modes: seq<Value>, hashes: Value, records: seq<Value>, report: Value, binarySha: Value)
    requires BoundHashes(hashes, binarySha) && |records| == |modes|
    requires forall i :: 0 <= i < |records| ==> RecordOf(records[i], modes[i], hashes, Streams(report, modes[i]))
    ensures AllShaped(records)
  {
    forall i | 0 <= i < |records| ensures RecordShape(records[i]) {
      ProjectedRecordHasShape(records[i], modes[i], hashes, Streams(report, modes[i]), binarySha);
    }
  }

  lemma ProjectionIsDistinct(modes: seq<Value>, hashes: Value, records: seq<Value>, report: Value, binarySha: Value,
                             osDigest: string -> Value)
    requires SoundModes(modes, hashes, binarySha, osDigest) && |records| == |modes|
    requires forall i :: 0 <= i < |records| ==> RecordOf(records[i], modes[i], hashes, Streams(report, modes[i]))
    ensures DistinctProviders(records)
  {
    hide SoundEntry, RecordOf, Get, ProviderFor;
    forall i, j | 0 <= i < j < |records| ensures Get(records[i], ProviderId) != Get(records[j], ProviderId) {
      TwoProviders(modes[i], modes[j], hashes, binarySha, osDigest);
      ProviderOf(records[i], modes[i], hashes, Streams(report, modes[i]));
      ProviderOf(records[j], modes[j], hashes, Streams(report, modes[j]));
    }
  }

  lemma ProviderOf(record: Value, entry: Value, hashes: Value, streams: bool)
    requires RecordOf(record, entry, hashes, streams)
    ensures Get(record, ProviderId) == ProviderFor(entry)
  {
  }

  lemma TwoProviders(one: Value, other: Value, hashes: Value, binarySha: Value, osDigest: string -> Value)
    requires SoundEntry(one, hashes, binarySha, osDigest) && SoundEntry(other, hashes, binarySha, osDigest)
    requires ModeOf(one) != ModeOf(other)
    ensures ProviderFor(one) != ProviderFor(other)
  {
    SoundEntryHasMode(one, hashes, binarySha, osDigest);
    SoundEntryHasMode(other, hashes, binarySha, osDigest);
    hide SoundEntry;
  }

  lemma SoundEntryHasMode(entry: Value, hashes: Value, binarySha: Value, osDigest: string -> Value)
    requires SoundEntry(entry, hashes, binarySha, osDigest)
    ensures IsMode(ModeOf(entry))
  {
  }

  /** What authorises a cutover, in terms of the evidence rather than of the records. */
  predicate EvidenceAuthorises(report: Value, entry: Value, streamingRequired: bool) {
    PassesRequired(Get(entry, Capabilities))
    && (ModeOf(entry) == Constant(Pcc) || !streamingRequired || Streams(report, entry))
  }

  lemma ProjectedRecordAuthorises(record: Value, report: Value, entry: Value, hashes: Value, candidate: Value,
                                  streamingRequired: bool)
    requires RecordOf(record, entry, hashes, Streams(report, entry)) && IsMode(ModeOf(entry)) && hashes.Obj?
             && candidate.Obj?
    ensures Authorises(record, candidate, streamingRequired)
       <==> NonNull(hashes.fields) == candidate.fields && EvidenceAuthorises(report, entry, streamingRequired)
  {
  }

  /**
   Publisher and configurator agree: a published manifest is accepted exactly when its
   identity is the candidate's and some mode qualified with the streaming it needs, where
   the system mode may borrow the server's streaming evidence.
   */
  lemma PublisherAndConfiguratorAgree(report: Value, binarySha: Value, osDigest: string -> Value, records: seq<Value>,
                                      candidate: Value, cliSha: Value, streamingRequired: bool)
    requires Publishable(report, binarySha, osDigest) && Projection(report, records)
    requires SoundCandidate(candidate, binarySha, cliSha)
    ensures ManifestAccepted(Arr(records), candidate, binarySha, cliSha, streamingRequired)
       <==> && NonNull(Get(report, FmManifestIdentity).fields) == candidate.fields
            && SomeEvidenceAuthorises(report, streamingRequired)
  {
    PublishedManifestHasShape(report, binarySha, osDigest, records);
    RecordsAuthoriseAsEvidence(report, Get(report, FmManifestIdentity), binarySha, osDigest, records, candidate,
                               streamingRequired);
  }

  lemma RecordsAuthoriseAsEvidence(report: Value, hashes: Value, binarySha: Value, osDigest: string -> Value,
                                   records: seq<Value>,
                                   candidate: Value, streamingRequired: bool)
    requires hashes == Get(report, FmManifestIdentity) && hashes.Obj? && candidate.Obj?
    requires SoundModes(Modes(report), hashes, binarySha, osDigest) && Projection(report, records)
    ensures SomeAuthorises(records, candidate, streamingRequired)
       <==> NonNull(hashes.fields) == candidate.fields && SomeEvidenceAuthorises(report, streamingRequired)
  {
    var modes := Modes(report);
    forall i | 0 <= i < |modes|
      ensures Authorises(records[i], candidate, streamingRequired)
         <==> NonNull(hashes.fields) == candidate.fields && EvidenceAuthorises(report, modes[i], streamingRequired)
    {
      SoundEntryHasMode(modes[i], hashes, binarySha, osDigest);
      ProjectedRecordAuthorises(records[i], report, modes[i], hashes, candidate, streamingRequired);
    }
  }

  predicate SomeEvidenceAuthorises(report: Value, streamingRequired: bool) {
    exists i :: 0 <= i < |Modes(report)| && EvidenceAuthorises(report, Modes(report)[i], streamingRequired)
  }

  /** An accepted manifest names the candidate binary's own digest in a qualified record. */
  lemma AcceptedManifestBindsTheBinary(manifest: Value, candidate: Value, binarySha: Value, cliSha: Value,
                                       streamingRequired: bool)
    requires ManifestAccepted(manifest, candidate, binarySha, cliSha, streamingRequired)
    ensures exists i :: 0 <= i < |manifest.items| && Get(manifest.items[i], QualificationStatus) == Constant(Qualified)
                        && Get(Get(manifest.items[i], IdentityKey), AbbeyBinary) == binarySha
  {
    var i :| 0 <= i < |manifest.items| && Authorises(manifest.items[i], candidate, streamingRequired);
    var identity := Get(manifest.items[i], IdentityKey);
    assert AbbeyBinary in NonNull(identity.fields) && NonNull(identity.fields)[AbbeyBinary] == binarySha;
  }
}
