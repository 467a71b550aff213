/**
 The managed owner environment: its parser (deploy/service_environment.py) and the
 lines both cutover renderers keep and append (deploy/configure-fm-primary.py and
 deploy/configure-mlx-primary.py, `rendered_environment`).
 */
module EnvironmentFile {
  import opened Wrappers
  import opened Text

  const MAX_ENV_BYTES := 64 * 1024

  /** Rust's `char::is_whitespace`. */
  predicate RustSpace(c: char) {
    || '\U{0009}' <= c <= '\U{000D}' || c == ' ' || c == '\U{0085}' || c == '\U{00A0}' || c == '\U{1680}'
    || '\U{2000}' <= c <= '\U{200A}' || c == '\U{2028}' || c == '\U{2029}' || c == '\U{202F}' || c == '\U{205F}'
       || c == '\U{3000}'
  }

  predicate KeyStart(c: char) {
    'A' <= c <= 'Z' || 'a' <= c <= 'z' || c == '_'
  }

  predicate KeyChar(c: char) {
    KeyStart(c) || '0' <= c <= '9'
  }

  predicate IsKey(s: string) {
    s != "" && KeyStart(s[0]) && forall i :: 0 <= i < |s| ==> KeyChar(s[i])
  }

  function IndexOf(s: string, c: char): (i: nat)
    ensures i <= |s| && (i < |s| ==> s[i] == c) && forall k :: 0 <= k < i ==> s[k] != c
  {
    if s == "" || s[0] == c then 0 else 1 + IndexOf(s[1..], c)
  }

  // ---------------------------------------------------------------- the parser

  datatype Line = Skip | Bad | Assign(key: string, value: string)

  function Unquote(raw: string): Option<string> {
    var v := Strip(raw, RustSpace);
    if v != "" && (v[0] == '\"' || v[0] == '\'') then
      if |v| >= 2 && v[|v| - 1] == v[0] then Some(v[1..|v| - 1]) else None
    else Some(v)
  }

  predicate Exported(line: string) {
    "export" <= line && |line| > 6 && RustSpace(line[6])
  }

  function AfterExport(line: string): string {
    if Exported(line) then TrimLeft(line[6..], RustSpace) else line
  }

  function ParseBody(body: string): Line {
    var eq := IndexOf(body, '=');
    if eq == |body| || !IsKey(body[..eq]) then Bad
    else
      var v := Unquote(body[eq + 1..]);
      if v.None? then Bad else Assign(body[..eq], v.value)
  }

  function ParseLine(raw: string): Line {
    var line := Strip(raw, RustSpace);
    if line == "" || line[0] == '#' then Skip else ParseBody(AfterExport(line))
  }

  type Values = map<string, string>

  /** The assignments of all lines, unless a line is malformed or a key repeats. */
  function Parsed(lines: seq<string>): Option<Values> {
    if lines == [] then Some(map[])
    else
      var before, last := Parsed(lines[..|lines| - 1]), ParseLine(lines[|lines| - 1]);
      if before.None? then None
      else match last
           case Skip => before
           case Bad => None
           case Assign(k, v) => if k in before.value then None else Some(before.value[k := v])
  }

  /** `text.split('\n')`. */
  function Split(s: string): (lines: seq<string>)
    ensures lines != [] && forall i :: 0 <= i < |lines| ==> '\n' !in lines[i]
  {
    if s == "" then [""]
    else
      var rest := Split(s[1..]);
      if s[0] == '\n' then [""] + rest else [[s[0]] + rest[0]] + rest[1..]
  }

  predicate Present(m: Values, key: string) {
    key in m && Strip(m[key], RustSpace) != ""
  }

  predicate Required(m: Values) {
    && Present(m, "DISCORD_TOKEN")
    && (Present(m, "ABBEY_VOICE_GUILD_ID") <==> Present(m, "ABBEY_VOICE_CHANNEL_ID"))
    && (Present(m, "ABBEY_VOICE_GUILD_ID") ==> Present(m, "ABBEY_BOT_LLM_ENDPOINT"))
  }

  datatype EnvironmentError = Syntax | RequiredConfiguration

  function Utf8Length(s: string): nat {
    if s == "" then 0
    else Utf8Length(s[..|s| - 1]) +
           (var c := s[|s| - 1] as int; if c < 0x80 then 1 else if c < 0x800 then 2 else if c < 0x1_0000 then 3 else 4)
  }

  function EnvironmentValues(text: string): Result<Values, EnvironmentError> {
    if Utf8Length(text) > MAX_ENV_BYTES || '\0' in text || Parsed(Split(text)).None? then Failure(Syntax)
    else
      var values := Parsed(Split(text)).value;
      if Required(values) then Success(values) else Failure(RequiredConfiguration)
  }

  /** `environment_values`, as the loop it is. */
  method ReadEnvironment(text: string) returns (r: Result<Values, EnvironmentError>)
    ensures r == EnvironmentValues(text)
  {
    hide ParseLine, Utf8Length, Required;
    if Utf8Length(text) > MAX_ENV_BYTES || '\0' in text { return Failure(Syntax); }
    var lines := Split(text);
    var values: Values := map[];
    for i := 0 to |lines|
      invariant Parsed(lines[..i]) == Some(values)
    {
      ParsedSnoc(lines, i);
      match ParseLine(lines[i]) {
        case Skip =>
        case Bad => ParsedStays(lines, i + 1); return Failure(Syntax);
        case Assign(k, v) =>
          if k in values { ParsedStays(lines, i + 1); return Failure(Syntax); }
          values := values[k := v];
      }
    }
    assert lines[..|lines|] == lines;
    if !Required(values) { return Failure(RequiredConfiguration); }
    return Success(values);
  }

  function Extended(before: Option<Values>, line: Line): Option<Values> {
    if before.None? then None
    else match line
         case Skip => before
         case Bad => None
         case Assign(k, v) => if k in before.value then None else Some(before.value[k := v])
  }

  lemma ParsedSnoc(lines: seq<string>, i: nat)
    requires i < |lines|
    ensures Parsed(lines[..i + 1]) == Extended(Parsed(lines[..i]), ParseLine(lines[i]))
  {
    hide ParseLine;
    assert lines[..i + 1][..i] == lines[..i];
  }

  lemma ParsedAdd(lines: seq<string>, line: string)
    ensures Parsed(lines + [line]) == Extended(Parsed(lines), ParseLine(line))
  {
    hide ParseLine;
    assert (lines + [line])[..|lines|] == lines;
  }

  lemma {:induction false} ParsedStays(lines: seq<string>, i: nat)
    requires i <= |lines| && Parsed(lines[..i]).None?
    ensures Parsed(lines).None?
    decreases |lines| - i
  {
    hide ParseLine;
    if i < |lines| {
      ParsedSnoc(lines, i);
      ParsedStays(lines, i + 1);
    } else {
      assert lines[..i] == lines;
    }
  }

  // ---------------------------------------------------------------- the renderers' view of a line

  function KeyRun(s: string, i: nat): (e: nat)
    requires i <= |s|
    ensures i <= e <= |s| && (forall k :: i <= k < e ==> KeyChar(s[k])) && (e < |s| ==> !KeyChar(s[e]))
    decreases |s| - i
  {
    if i < |s| && KeyChar(s[i]) then KeyRun(s, i + 1) else i
  }

  predicate Blank(c: char) {
    c == ' ' || c == '\t'
  }

  function BlankRun(s: string, i: nat): (e: nat)
    requires i <= |s|
    ensures i <= e <= |s| && (forall k :: i <= k < e ==> Blank(s[k])) && (e < |s| ==> !Blank(s[e]))
    decreases |s| - i
  {
    if i < |s| && Blank(s[i]) then BlankRun(s, i + 1) else i
  }

  function KeyAt(s: string, i: nat): Option<string>
    requires i <= |s|
  {
    var e := KeyRun(s, i);
    if i < |s| && KeyStart(s[i]) && e < |s| && s[e] == '=' then Some(s[i..e]) else None
  }

  /** The key matched by the renderers' assignment pattern, on the stripped line. */
  function AssignedKey(raw: string): Option<string> {
    var s := Strip(raw, PySpace);
    if "export" <= s && |s| > 6 && Blank(s[6]) then KeyAt(s, BlankRun(s, 6)) else KeyAt(s, 0)
  }

  /** An exported assignment separates `export` from its key by spaces and tabs only. */
  predicate PlainExport(raw: string) {
    var line := Strip(raw, RustSpace);
    Exported(line) ==> forall k :: 6 <= k < |line| - |AfterExport(line)| ==> Blank(line[k])
  }

  lemma RustSpaceIsPySpace()
    ensures forall c :: RustSpace(c) ==> PySpace(c)
  {
  }

  /** Python strips a wider set, but not past a character of an assignment. */
  lemma StripsAgree(raw: string, at: nat)
    requires var line := Strip(raw, RustSpace); at < |line| && !PySpace(line[0]) && !PySpace(line[at])
    ensures var line, wide := Strip(raw, RustSpace), Strip(raw, PySpace);
            && at < |wide|
            && wide[..at + 1] == line[..at + 1]
  {
    RustSpaceIsPySpace();
    hide RustSpace, PySpace;
    var left := TrimLeft(raw, RustSpace);
    var line := TrimRight(left, RustSpace);
    assert left[0] == line[0];
    TrimLeftIs(raw, PySpace, |raw| - |left|);
    var wide := TrimRight(left, PySpace);
    assert left[at] == line[at];
    SameFront(wide, left, at + 1);
    SameFront(line, left, at + 1);
  }

  lemma SameFront(p: string, s: string, n: nat)
    requires p <= s && n <= |p|
    ensures p[..n] == s[..n]
  {
  }

  lemma KeyBeforeEquals(s: string, i: nat, eq: nat)
    requires i < eq < |s| && s[eq] == '=' && IsKey(s[i..eq])
    ensures KeyAt(s, i) == Some(s[i..eq])
  {
    var key := s[i..eq];
    assert key[0] == s[i];
    forall k | i <= k < eq ensures KeyChar(s[k]) { assert s[k] == key[k - i]; }
    assert KeyRun(s, i) == eq;
  }

  lemma HashIsNoSpace()
    ensures !PySpace('#') && !PySpace('=') && forall c :: KeyStart(c) ==> !PySpace(c)
  {
  }

  lemma SkippedLine(raw: string)
    requires ParseLine(raw) == Skip
    ensures var line := Strip(raw, RustSpace); line == "" || line[0] == '#'
  {
    hide Strip, ParseBody, AfterExport;
    BodyIsNoSkip(AfterExport(Strip(raw, RustSpace)));
  }

  lemma NoKeyAtHash(s: string)
    requires s == "" || s[0] == '#'
    ensures !("export" <= s) && KeyAt(s, 0) == None
  {
    if s != "" { assert "export"[0] != s[0]; }
  }

  lemma SkippedLineHasNoKey(raw: string)
    requires ParseLine(raw) == Skip
    ensures AssignedKey(raw) == None
  {
    SkippedLine(raw);
    HashIsNoSpace();
    hide RustSpace, PySpace, ParseLine, KeyAt, Strip;
    var line := Strip(raw, RustSpace);
    if line == "" {
      AllSpace(raw);
    } else {
      StripsAgree(raw, 0);
      assert Strip(raw, PySpace)[0] == Strip(raw, PySpace)[..1][0] == line[..1][0];
    }
    NoKeyAtHash(Strip(raw, PySpace));
  }

  lemma BodyIsNoSkip(body: string)
    ensures ParseBody(body) != Skip
  {
  }

  lemma AllSpace(raw: string)
    requires Strip(raw, RustSpace) == ""
    ensures Strip(raw, PySpace) == ""
  {
    RustSpaceIsPySpace();
    hide RustSpace, PySpace;
    TrimLeftIs(raw, PySpace, |raw|);
  }

  /** Where a parsed assignment's key lies in its line. */
  lemma Anatomy(line: string, from: nat, eq: nat)
    requires from == |line| - |AfterExport(line)| && eq == IndexOf(AfterExport(line), '=')
    requires ParseBody(AfterExport(line)).Assign?
    ensures from + eq < |line| && line[from + eq] == '=' && IsKey(line[from..from + eq])
    ensures ParseBody(AfterExport(line)).key == line[from..from + eq]
  {
    hide IsKey, Unquote, AfterExport, Exported;
    var body := AfterExport(line);
    BodyIsATail(line);
    assert body[..eq] == line[from..from + eq];
    assert body[eq] == line[from + eq];
  }

  lemma KeyStarts(line: string, from: nat, eq: nat)
    requires from + eq < |line| && IsKey(line[from..from + eq])
    ensures eq > 0 && KeyStart(line[from])
  {
    assert line[from..from + eq][0] == line[from];
  }

  /** Parser and renderers read the same key off an assignment. */
  lemma AssignedLineHasItsKey(raw: string)
    requires ParseLine(raw).Assign? && PlainExport(raw)
    ensures AssignedKey(raw) == Some(ParseLine(raw).key)
  {
    hide Strip, ParseBody, AfterExport;
    KeyIsSeen(raw, Strip(raw, RustSpace));
  }

  lemma KeyIsSeen(raw: string, line: string)
    requires line == Strip(raw, RustSpace) && ParseBody(AfterExport(line)).Assign? && PlainExport(raw)
    ensures AssignedKey(raw) == Some(ParseBody(AfterExport(line)).key)
  {
    hide *;
    BodyIsATail(line);
    var from, eq: nat := |line| - |AfterExport(line)|, IndexOf(AfterExport(line), '=');
    Anatomy(line, from, eq);
    KeyStarts(line, from, eq);
    FirstIsNoSpace(line, from);
    StripsAgree(raw, from + eq);
    var wide := Strip(raw, PySpace);
    SliceMoves(line, wide, from, eq);
    KeyBeforeEquals(wide, from, from + eq);
    if Exported(line) {
      BlankUpTo(raw, line, from);
      ExportIsSeen(line, wide, from, eq);
      KeyAfterExport(raw, from);
    } else {
      AfterNoExport(line);
      NoExportIsSeen(line, wide, eq);
      KeyFirst(raw);
    }
  }

  lemma AfterNoExport(line: string)
    requires !Exported(line)
    ensures AfterExport(line) == line
  {
  }

  lemma BlankUpTo(raw: string, line: string, from: nat)
    requires PlainExport(raw) && line == Strip(raw, RustSpace) && Exported(line) && from + |AfterExport(line)| == |line|
    ensures forall k :: 6 <= k < from ==> Blank(line[k])
  {
    hide Strip, AfterExport, Exported;
  }

  lemma FirstIsNoSpace(line: string, from: nat)
    requires from < |line| && from == |line| - |AfterExport(line)| && KeyStart(line[from])
    ensures !PySpace(line[0]) && !PySpace('=')
  {
    HashIsNoSpace();
    hide RustSpace, PySpace;
    BodyIsATail(line);
    FirstCharacter(line);
  }

  lemma KeyAfterExport(raw: string, from: nat)
    requires var s := Strip(raw, PySpace); "export" <= s && |s| > 6 && Blank(s[6]) && BlankRun(s, 6) == from
    ensures AssignedKey(raw) == KeyAt(Strip(raw, PySpace), from)
  {
    hide Strip, KeyAt, BlankRun;
  }

  lemma KeyFirst(raw: string)
    requires var s := Strip(raw, PySpace); !("export" <= s && |s| > 6 && Blank(s[6]))
    ensures AssignedKey(raw) == KeyAt(Strip(raw, PySpace), 0)
  {
    hide Strip, KeyAt, BlankRun;
  }

  lemma BodyIsATail(line: string)
    ensures |AfterExport(line)| <= |line| && AfterExport(line) == line[|line| - |AfterExport(line)|..]
    ensures if Exported(line) then |line| - |AfterExport(line)| > 6 else AfterExport(line) == line
  {
    if Exported(line) { assert RustSpace(line[6..][0]); }
  }

  /** A line whose body starts a key starts with a letter, an underscore or `export`. */
  lemma FirstCharacter(line: string)
    requires AfterExport(line) != "" && KeyStart(AfterExport(line)[0])
    ensures line != "" && KeyStart(line[0])
  {
    if Exported(line) { assert line[0] == "export"[0]; }
  }

  lemma SliceMoves(line: string, wide: string, from: nat, eq: nat)
    requires from + eq < |line| && from + eq < |wide| && wide[..from + eq + 1] == line[..from + eq + 1]
    ensures wide[from..from + eq] == line[from..from + eq] && wide[from + eq] == line[from + eq]
  {
    var cut := line[..from + eq + 1];
    assert wide[from..from + eq] == cut[from..from + eq] == line[from..from + eq];
    assert wide[from + eq] == cut[from + eq] == line[from + eq];
  }

  lemma ExportIsSeen(line: string, wide: string, from: nat, eq: nat)
    requires Exported(line) && from + eq < |line| && from > 6 && from + eq < |wide|
             && wide[..from + eq + 1] == line[..from + eq + 1]
    requires KeyStart(line[from]) && forall k :: 6 <= k < from ==> Blank(line[k])
    ensures "export" <= wide && |wide| > 6 && Blank(wide[6]) && BlankRun(wide, 6) == from
  {
    forall k | 0 <= k <= from ensures wide[k] == line[k] {
      assert wide[k] == wide[..from + eq + 1][k] == line[..from + eq + 1][k];
    }
    assert wide[..6] == line[..6];
  }

  lemma NoEqualsInExport(wide: string)
    requires "export" <= wide && |wide| > 6 && Blank(wide[6])
    ensures forall k :: 0 <= k <= 6 ==> wide[k] != '='
  {
    assert wide[..6] == "export";
    forall k | 0 <= k < 6 ensures wide[k] != '=' { assert wide[k] == "export"[k]; }
  }

  lemma ExportCarriesOver(line: string, wide: string)
    requires "export" <= wide && |wide| > 6 && Blank(wide[6]) && |line| > 6 && line[..7] == wide[..7]
    ensures Exported(line)
  {
    assert line[..6] == line[..7][..6] == wide[..6] && line[6] == line[..7][6];
  }

  lemma NoExportIsSeen(line: string, wide: string, eq: nat)
    requires !Exported(line) && 0 < eq < |line| && eq < |wide| && wide[..eq + 1] == line[..eq + 1] && line[eq] == '='
    ensures !("export" <= wide && |wide| > 6 && Blank(wide[6]))
  {
    hide Exported;
    assert wide[eq] == wide[..eq + 1][eq] == line[..eq + 1][eq] == '=';
    if "export" <= wide && |wide| > 6 && Blank(wide[6]) {
      NoEqualsInExport(wide);
      assert line[..7] == line[..eq + 1][..7] == wide[..7];
      ExportCarriesOver(line, wide);
      assert false;
    }
  }
}
