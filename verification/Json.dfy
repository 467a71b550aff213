/**
 Decoded JSON, with object keys as an enumeration of the names the qualification
 programs use (any other key is Unnamed) and string values split into the programs' own
 constants and every other string.
 */
module Json {

  datatype Key =
    | FmCliModes | FmCli | FmManifestIdentity | FmServer
    | Configured | IdentityKey | Capabilities | VisionIdentity | Mode | OsBuild | CliSha | Status | ToolResultMarker
    | AbbeyBinary | ProviderBinary | OsSha | ToolSchema | ModelSha | SandboxSha
    | Version | FixtureVersion | ProviderId | ProviderClass
    | DeclaredCapabilities | IsolationCapabilities | QualificationStatus
    | Text | Streaming | StructuredOutput | Tools | Vision | Ocr
    | EnvironmentCleared | AbsoluteNoShell | TreeContained | PrivateState | LoopbackOnly | SandboxAttested
    | Unnamed(name: string)

  /** The string constants the two programs compare values against. */
  datatype Word =
    | FixturesV1 | ContinuationV1 | Qualified | Failed | System | Pcc
    | FoundationModels | FoundationModelsPcc | OsManagedLocal | Passing | Failing | Unsupported | Skipped

  datatype Value =
    | Null
    | Bool(b: bool)
    | Int(n: int)
    | Constant(word: Word)
    | Str(s: string)
    | Arr(items: seq<Value>)
    | Obj(fields: map<Key, Value>)

  /** `value.get(key)` on an object: absent keys read as null. */
  function Get(v: Value, k: Key): Value {
    if v.Obj? && k in v.fields then v.fields[k] else Null
  }

  predicate HexDigit(c: char) {
    '0' <= c <= '9' || 'a' <= c <= 'f'
  }

  /** A lower-case SHA-256 digest. */
  predicate IsSha256(v: Value) {
    v.Str? && |v.s| == 64 && forall i :: 0 <= i < 64 ==> HexDigit(v.s[i])
  }

  /** The entries of an object that are not null. */
  function NonNull(fields: map<Key, Value>): map<Key, Value> {
    map k | k in fields && fields[k] != Null :: fields[k]
  }
}
