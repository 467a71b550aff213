/**
 Both cutover programs' `rendered_environment` (deploy/configure-fm-primary.py and
 deploy/configure-mlx-primary.py): the loops, their results as functions, and the managed settings.
 */
module EnvironmentRender {
  import opened Wrappers
  import opened Text
  import opened EnvironmentFile

  // ---------------------------------------------------------------- lines

  /** The characters `str.splitlines` breaks at. */
  predicate LineBreak(c: char) {
    '\n' <= c <= '\r' || '\U{001C}' <= c <= '\U{001E}' || c == '\U{0085}' || c == '\U{2028}' || c == '\U{2029}'
  }

  /** Every line break is a newline. */
  ghost predicate OnlyNewlines(s: string) {
    forall i :: 0 <= i < |s| && LineBreak(s[i]) ==> s[i] == '\n'
  }

  function BreakAt(s: string): (i: nat)
    ensures i <= |s| && (i < |s| ==> LineBreak(s[i])) && forall k :: 0 <= k < i ==> !LineBreak(s[k])
  {
    if s == "" || LineBreak(s[0]) then 0 else 1 + BreakAt(s[1..])
  }

  function AfterBreak(s: string): (i: nat)
    ensures i <= |s| && (s != "" ==> i > 0) && BreakAt(s) <= i
  {
    var i := BreakAt(s);
    if i == |s| then i
    else if s[i] == '\r' && i + 1 < |s| && s[i + 1] == '\n' then i + 2
    else i + 1
  }

  /** `splitlines(keepends=True)` and `splitlines()`. */
  function SplitKeep(s: string): seq<string> {
    if s == "" then [] else [s[..AfterBreak(s)]] + SplitKeep(s[AfterBreak(s)..])
  }

  function SplitLines(s: string): seq<string> {
    if s == "" then [] else [s[..BreakAt(s)]] + SplitLines(s[AfterBreak(s)..])
  }

  /** Every line followed by a newline. */
  function Unlines(lines: seq<string>): string {
    if lines == [] then "" else lines[0] + "\n" + Unlines(lines[1..])
  }

  function Join(lines: seq<string>): string
    requires lines != []
  {
    if |lines| == 1 then lines[0] else lines[0] + "\n" + Join(lines[1..])
  }

  function Concat(pieces: seq<string>): string {
    if pieces == [] then "" else Concat(pieces[..|pieces| - 1]) + pieces[|pieces| - 1]
  }

  // ---------------------------------------------------------------- shlex.quote

  predicate ShellSafe(c: char) {
    'a' <= c <= 'z' || 'A' <= c <= 'Z' || '0' <= c <= '9' || c in "_@%+=:,./-"
  }

  function EscapeQuotes(s: string): string {
    if s == "" then "" else (if s[0] == '\'' then "'\"'\"'" else [s[0]]) + EscapeQuotes(s[1..])
  }

  function Quote(s: string): string {
    if s == "" then "''"
    else if forall i :: 0 <= i < |s| ==> ShellSafe(s[i]) then s
    else "'" + EscapeQuotes(s) + "'"
  }

  // ---------------------------------------------------------------- rendering

  /** What distinguishes the two renderers: fm appends to kept lines as they are, mlx
      drops trailing blank lines and comments out the secrets it deactivates. */
  datatype Plan = Plan(mlx: bool, header: string, managed: seq<(string, string)>, secrets: set<string>, notice: string)

  function Keys(managed: seq<(string, string)>): set<string> {
    set i | 0 <= i < |managed| :: managed[i].0
  }

  function Settings(managed: seq<(string, string)>): Values {
    if managed == [] then map[]
    else Settings(managed[..|managed| - 1])[managed[|managed| - 1].0 := managed[|managed| - 1].1]
  }

  function Pair(p: (string, string)): string {
    p.0 + "=" + Quote(p.1)
  }

  function Pairs(managed: seq<(string, string)>): seq<string> {
    seq(|managed|, i requires 0 <= i < |managed| => Pair(managed[i]))
  }

  /** The managed key a line assigns, if it assigns one. */
  function ManagedKey(plan: Plan, line: string): Option<string> {
    var key := AssignedKey(line);
    if key.Some? && key.value in Keys(plan.managed) then key else None
  }

  function Prior(line: string): string {
    Strip(line[if IndexOf(line, '=') < |line| then IndexOf(line, '=') + 1 else |line|..], PySpace)
  }

  predicate ActiveSecret(plan: Plan, line: string) {
    && ManagedKey(plan, line).Some? && ManagedKey(plan, line).value in plan.secrets
    && Prior(line) !in ["", "''", "\"\""]
  }

  function Keep(plan: Plan, line: string): seq<string> {
    if line == plan.header then []
    else if ManagedKey(plan, line).None? then [line]
    else if ActiveSecret(plan, line) then [plan.notice, "# " + line]
    else []
  }

  function Kept(plan: Plan, lines: seq<string>): seq<string> {
    if lines == [] then [] else Kept(plan, lines[..|lines| - 1]) + Keep(plan, lines[|lines| - 1])
  }

  /** Trailing lines of whitespace removed. */
  function Trimmed(lines: seq<string>): (t: seq<string>)
    ensures |t| <= |lines| && t == lines[..|t|]
  {
    if lines != [] && Strip(lines[|lines| - 1], PySpace) == "" then Trimmed(lines[..|lines| - 1]) else lines
  }

  function Body(plan: Plan, kept: seq<string>): seq<string> {
    if plan.mlx then Trimmed(kept) + [""] else kept
  }

  /** The lines of the rendered file. */
  function Output(plan: Plan, lines: seq<string>): seq<string> {
    Body(plan, Kept(plan, lines)) + ([plan.header] + Pairs(plan.managed))
  }

  function Seen(plan: Plan, lines: seq<string>): set<string> {
    if lines == [] then {}
    else
      var key := ManagedKey(plan, lines[|lines| - 1]);
      Seen(plan, lines[..|lines| - 1]) + (if key.Some? then {key.value} else {})
  }

  /** No managed key is assigned twice. */
  predicate Distinct(plan: Plan, lines: seq<string>) {
    lines == [] ||
    (var before, key := lines[..|lines| - 1], ManagedKey(plan, lines[|lines| - 1]);
     Distinct(plan, before) && (key.Some? ==> key.value !in Seen(plan, before)))
  }

  /** `rendered_environment` of the mlx cutover. */
  function MlxRendered(plan: Plan, original: string): Option<string> {
    var lines := SplitLines(original);
    if Distinct(plan, lines) then Some(Join(Trimmed(Kept(plan, lines)) + ["", plan.header] + Pairs(plan.managed)) +
                                         "\n") else None
  }

  /** `line.rstrip("\r\n")`. */
  function Bare(line: string): string {
    TrimRight(line, (c: char) => c == '\r' || c == '\n')
  }

  function FmKept(plan: Plan, pieces: seq<string>): seq<string> {
    if pieces == [] then []
    else
      var last := pieces[|pieces| - 1];
      FmKept(plan, pieces[..|pieces| - 1]) +
        (if ManagedKey(plan, last).Some? || Bare(last) == plan.header then [] else [last])
  }

  function Finished(content: string): string {
    if content != "" && content[|content| - 1] != '\n' then content + "\n" else content
  }

  /** `rendered_environment` of the fm cutover. */
  function FmRendered(plan: Plan, original: string): Option<string> {
    var pieces := SplitKeep(original);
    if Distinct(plan, pieces) then Some(Finished(Concat(FmKept(plan, pieces))) + plan.header + "\n" +
                                          Unlines(Pairs(plan.managed)))
    else None
  }

  function Rendered(plan: Plan, original: string): Option<string> {
    if plan.mlx then MlxRendered(plan, original) else FmRendered(plan, original)
  }

  // ---------------------------------------------------------------- plans

  /** Text that stays on its line. */
  ghost predicate Clean(s: string) {
    forall i :: 0 <= i < |s| ==> !LineBreak(s[i])
  }

  ghost predicate Comment(s: string) {
    s != "" && s[0] == '#' && '=' !in s && '\0' !in s && Clean(s)
  }

  ghost predicate DistinctKeys(managed: seq<(string, string)>) {
    forall i, j :: 0 <= i < j < |managed| ==> managed[i].0 != managed[j].0
  }

  ghost predicate ValidPair(p: (string, string)) {
    IsKey(p.0) && '\'' !in p.1 && '\0' !in p.1 && Clean(p.1)
  }

  ghost predicate ValidPairs(managed: seq<(string, string)>) {
    forall i :: 0 <= i < |managed| ==> ValidPair(managed[i])
  }

  ghost predicate SecretsAreCleared(plan: Plan) {
    forall i :: 0 <= i < |plan.managed| && plan.managed[i].0 in plan.secrets ==> plan.managed[i].1 == ""
  }

  ghost predicate Valid(plan: Plan) {
    && Comment(plan.header) && Comment(plan.notice) && plan.header != plan.notice
    && DistinctKeys(plan.managed) && ValidPairs(plan.managed) && SecretsAreCleared(plan)
    && (!plan.mlx ==> plan.secrets == {})
  }

  lemma CommentLine(raw: string)
    requires raw != "" && raw[0] == '#'
    ensures ParseLine(raw) == Skip && AssignedKey(raw) == None && PlainExport(raw)
  {
    hide *;
    CommentIsSkipped(raw);
    SkippedLineHasNoKey(raw);
  }

  lemma CommentIsSkipped(raw: string)
    requires raw != "" && raw[0] == '#'
    ensures ParseLine(raw) == Skip && PlainExport(raw)
  {
    hide ParseBody, AfterExport;
    var line := Strip(raw, RustSpace);
    assert TrimLeft(raw, RustSpace) == raw && !RustSpace(raw[0]);
    assert line != "" && line[0] == raw[0];
    NoHashExport(line);
  }

  lemma NoHashExport(line: string)
    requires line != "" && line[0] == '#'
    ensures !Exported(line)
  {
  }

  // ---------------------------------------------------------------- the loops

  lemma StepBack(lines: seq<string>, i: nat)
    requires i < |lines|
    ensures lines[..i + 1] != [] && lines[..i + 1][..i] == lines[..i] && lines[..i + 1][i] == lines[i]
  {
  }

  lemma {:induction false} DuplicateStays(plan: Plan, lines: seq<string>, i: nat)
    requires i <= |lines| && !Distinct(plan, lines[..i])
    ensures !Distinct(plan, lines)
    decreases |lines| - i
  {
    hide ManagedKey;
    if i < |lines| {
      StepBack(lines, i);
      DuplicateStays(plan, lines, i + 1);
    } else {
      assert lines[..i] == lines;
    }
  }

  method RenderMlx(plan: Plan, original: string) returns (r: Option<string>)
    requires Comment(plan.header)
    ensures r == MlxRendered(plan, original)
  {
    hide AssignedKey, ActiveSecret, SplitLines, Join, Pair, PlainExport, ParseLine;
    var lines := SplitLines(original);
    var kept: seq<string>, seen: set<string> := [], {};
    for i := 0 to |lines|
      invariant kept == Kept(plan, lines[..i]) && seen == Seen(plan, lines[..i]) && Distinct(plan, lines[..i])
    {
      StepBack(lines, i);
      var line := lines[i];
      CommentLine(plan.header);
      if line == plan.header { continue; }
      var key := ManagedKey(plan, line);
      if key.Some? {
        if key.value in seen { DuplicateStays(plan, lines, i + 1); return None; }
        seen := seen + {key.value};
        if ActiveSecret(plan, line) { kept := kept + [plan.notice, "# " + line]; }
      } else {
        kept := kept + [line];
      }
    }
    assert lines[..|lines|] == lines;
    while kept != [] && Strip(kept[|kept| - 1], PySpace) == ""
      invariant Trimmed(kept) == Trimmed(Kept(plan, lines))
    {
      kept := kept[..|kept| - 1];
    }
    return Some(Join(kept + ["", plan.header] + Pairs(plan.managed)) + "\n");
  }

  method RenderFm(plan: Plan, original: string) returns (r: Option<string>)
    ensures r == FmRendered(plan, original)
  {
    hide ManagedKey, SplitKeep, Bare, Pair;
    var pieces := SplitKeep(original);
    var kept: seq<string>, seen: set<string> := [], {};
    for i := 0 to |pieces|
      invariant kept == FmKept(plan, pieces[..i]) && seen == Seen(plan, pieces[..i]) && Distinct(plan, pieces[..i])
    {
      StepBack(pieces, i);
      var line := pieces[i];
      var key := ManagedKey(plan, line);
      if key.Some? {
        if key.value in seen { DuplicateStays(plan, pieces, i + 1); return None; }
        seen := seen + {key.value};
      } else if Bare(line) != plan.header {
        kept := kept + [line];
      }
    }
    assert pieces[..|pieces|] == pieces;
    return Some(Finished(Concat(kept)) + plan.header + "\n" + Unlines(Pairs(plan.managed)));
  }

  // ---------------------------------------------------------------- kept lines parse alike

  lemma LineKey(line: string)
    requires PlainExport(line) && ParseLine(line) != Bad
    ensures AssignedKey(line) == if ParseLine(line).Assign? then Some(ParseLine(line).key) else None
  {
    hide *;
    if ParseLine(line).Assign? {
      AssignedLineHasItsKey(line);
    } else {
      SkippedLineHasNoKey(line);
    }
  }

  lemma ParsedAddSkip(lines: seq<string>, line: string)
    requires ParseLine(line) == Skip
    ensures Parsed(lines + [line]) == Parsed(lines)
  {
  }

  lemma NothingAdded(lines: seq<string>)
    ensures lines + [] == lines
  {
  }

  /** A comment line made from a deactivated secret. */
  lemma Disabled(plan: Plan, line: string)
    requires Valid(plan)
    ensures ParseLine(plan.notice) == ParseLine("# " + line) == Skip
    ensures PlainExport(plan.notice) && PlainExport("# " + line)
    ensures AssignedKey(plan.notice) == AssignedKey("# " + line) == None
  {
    hide ParseLine, PlainExport, AssignedKey;
    CommentLine(plan.notice);
    CommentLine("# " + line);
  }

  // ---------------------------------------------------------------- the appended assignments

  lemma {:induction false} EscapedIsLonger(s: string)
    ensures |EscapeQuotes(s)| >= |s| && (EscapeQuotes(s) == s <==> '\'' !in s)
            && ('\'' in s ==> |EscapeQuotes(s)| > |s|)
  {
    if s != "" {
      EscapedIsLonger(s[1..]);
      if s[0] == '\'' {
      } else {
      }
    }
  }

  lemma NothingToStrip(s: string, space: char -> bool)
    requires s != "" && !space(s[0]) && !space(s[|s| - 1])
    ensures Strip(s, space) == s
  {
  }

  lemma QuoteEnds(v: string)
    ensures Quote(v) != ""
    ensures !RustSpace(Quote(v)[0]) && !RustSpace(Quote(v)[|Quote(v)| - 1])
    ensures !PySpace(Quote(v)[0]) && !PySpace(Quote(v)[|Quote(v)| - 1])
  {
    if v != "" && forall i :: 0 <= i < |v| ==> ShellSafe(v[i]) {
      SafeIsNoSpace(v[0]);
    }
  }

  lemma SafeIsNoSpace(c: char)
    requires ShellSafe(c)
    ensures !RustSpace(c) && !PySpace(c) && c != '\'' && c != '\"'
  {
  }

  lemma UnquotePlain(s: string)
    requires s != "" && !RustSpace(s[0]) && !RustSpace(s[|s| - 1]) && s[0] != '\'' && s[0] != '\"'
    ensures Unquote(s) == Some(s)
  {
  }

  lemma UnquoteQuoted(s: string)
    ensures Unquote("'" + s + "'") == Some(s)
  {
  }

  lemma SafeHasNoQuote(v: string)
    requires forall i :: 0 <= i < |v| ==> ShellSafe(v[i])
    ensures '\'' !in v && (v != "" ==> v[0] != '\"')
  {
  }

  /** `shlex.quote` survives the parser exactly for values without a single quote. */
  lemma QuoteRoundTrip(v: string)
    ensures Unquote(Quote(v)) == Some(v) <==> '\'' !in v
  {
    QuoteEnds(v);
    EscapedIsLonger(v);
    hide RustSpace, PySpace, ShellSafe, Unquote, EscapeQuotes;
    if v == "" {
      UnquoteQuoted(v);
      assert "'" + v + "'" == "''";
    } else if forall i :: 0 <= i < |v| ==> ShellSafe(v[i]) {
      SafeHasNoQuote(v);
      UnquotePlain(v);
    } else {
      UnquoteQuoted(EscapeQuotes(v));
    }
  }

  lemma EqualsAt(s: string, i: nat)
    requires i < |s| && s[i] == '=' && forall k :: 0 <= k < i ==> s[k] != '='
    ensures IndexOf(s, '=') == i
  {
  }

  lemma KeyCharIsNoSpace(c: char)
    requires KeyChar(c) || c == '='
    ensures !RustSpace(c) && !PySpace(c) && (KeyChar(c) ==> c != '=') && (KeyStart(c) ==> c != '#')
  {
  }

  /** An unquoted or quoted assignment, before it is stripped or split. */
  function Assignment(key: string, raw: string): string {
    key + "=" + raw
  }

  lemma AssignmentShape(key: string, raw: string)
    requires IsKey(key) && raw != ""
    ensures var line, n := Assignment(key, raw), |key|;
            && n > 0 && n + 1 < |line| && line[n] == '=' && line[..n] == key
            && line[n + 1..] == raw
    ensures var line, n := Assignment(key, raw), |key|; forall k :: 0 <= k < n ==> KeyChar(line[k])
    ensures var line := Assignment(key, raw); KeyStart(line[0]) && line[|line| - 1] == raw[|raw| - 1]
  {
  }

  lemma PairIsNotExported(line: string, n: nat)
    requires n < |line| && line[n] == '=' && forall k :: 0 <= k < n ==> KeyChar(line[k])
    ensures !Exported(line)
  {
  }

  lemma AssignmentBody(key: string, raw: string)
    requires IsKey(key) && raw != "" && !RustSpace(raw[|raw| - 1])
    ensures var line := Assignment(key, raw);
            IndexOf(line, '=') == |key| && Strip(line, RustSpace) == line && !Exported(line) && line != ""
            && line[0] != '#'
  {
    hide *;
    AssignmentShape(key, raw);
    var line, n := Assignment(key, raw), |key|;
    forall k | 0 <= k < n ensures line[k] != '=' { KeyCharIsNoSpace(line[k]); }
    KeyCharIsNoSpace(line[0]);
    NothingToStrip(line, RustSpace);
    PairIsNotExported(line, n);
  }

  lemma AssignmentParses(key: string, raw: string, value: string)
    requires IsKey(key) && raw != "" && !RustSpace(raw[|raw| - 1]) && Unquote(raw) == Some(value)
    ensures ParseLine(Assignment(key, raw)) == Assign(key, value) && PlainExport(Assignment(key, raw))
    ensures ParseBody(Assignment(key, raw)) == Assign(key, value)
  {
    hide Assignment, Strip, Exported, IndexOf, Unquote, IsKey, RustSpace;
    AssignmentBody(key, raw);
    AssignmentShape(key, raw);
  }

  /** An appended assignment parses to its key and value. */
  lemma PairParses(p: (string, string))
    requires ValidPair(p)
    ensures ParseLine(Pair(p)) == Assign(p.0, p.1) && PlainExport(Pair(p)) && AssignedKey(Pair(p)) == Some(p.0)
  {
    hide ParseLine, PlainExport, ParseBody, Unquote, Quote, AssignedKey, IsKey, RustSpace, PySpace;
    QuoteEnds(p.1);
    QuoteRoundTrip(p.1);
    AssignmentParses(p.0, Quote(p.1), p.1);
    LineKey(Pair(p));
  }

  lemma PairsSnoc(managed: seq<(string, string)>)
    requires managed != []
    ensures var n := |managed| - 1; Pairs(managed) == Pairs(managed[..n]) + [Pair(managed[n])]
  {
    hide Pair;
  }

  lemma Associate(a: seq<string>, b: seq<string>, c: seq<string>)
    ensures a + (b + c) == a + b + c
  {
  }

  lemma KeysSnoc(managed: seq<(string, string)>)
    requires managed != [] && DistinctKeys(managed)
    ensures var n := |managed| - 1;
            && Keys(managed) == Keys(managed[..n]) + {managed[n].0}
            && managed[n].0 !in Keys(managed[..n])
    ensures DistinctKeys(managed[..|managed| - 1])
  {
  }

  /** Appending the assignments of keys the lines do not assign adds exactly them. */
  lemma {:induction false} PairsParse(lines: seq<string>, m: Values, managed: seq<(string, string)>)
    requires Parsed(lines) == Some(m) && ValidPairs(managed) && DistinctKeys(managed) && m.Keys !! Keys(managed)
    ensures Parsed(lines + Pairs(managed)) == Some(m + Settings(managed)) && Settings(managed).Keys == Keys(managed)
  {
    hide ParseLine, Parsed, PlainExport, ValidPair, AssignedKey, Pair, Pairs, Keys, DistinctKeys;
    if managed == [] {
      NoPairs(lines, managed);
      assert m + Settings(managed) == m;
    } else {
      var n := |managed| - 1;
      KeysSnoc(managed);
      PairsSnoc(managed);
      PairsParse(lines, m, managed[..n]);
      PairParses(managed[n]);
      Associate(lines, Pairs(managed[..n]), [Pair(managed[n])]);
      ParsedAdd(lines + Pairs(managed[..n]), Pair(managed[n]));
      assert (m + Settings(managed[..n]))[managed[n].0 := managed[n].1] == m + Settings(managed);
    }
  }

  lemma NoPairs(lines: seq<string>, managed: seq<(string, string)>)
    requires managed == []
    ensures lines + Pairs(managed) == lines && Keys(managed) == {} && Settings(managed) == map[]
  {
  }

  // ---------------------------------------------------------------- the two cutovers

  function FmPlan(cli: string, manifest: string): Plan {
    Plan(false,
         "# FM primary; managed by " + "deploy/configure-fm-primary.py.",
         [("ABBEY_FM_MODE", "pcc,system"), ("ABBEY_FM_ROLE", "primary"), ("ABBEY_FM_CLI", cli),
          ("ABBEY_FM_CAPABILITY_MANIFEST", manifest)],
         {}, "#")
  }

  function MlxPlan(modelDir: string, fmCli: string, manifest: string): Plan {
    Plan(true,
         "# Qualified local providers; managed by " + "deploy/configure-mlx-primary.py.",
         [("ANTHROPIC_API_KEY", ""), ("ABBEY_BOT_LLM_ENDPOINT", "http://127.0.0.1:8282"),
          ("ABBEY_BOT_LLM_MODEL", modelDir),
          ("ABBEY_BOT_LLM_TOOLS", "on"), ("ABBEY_VISION_PROVIDER", "remote"),
          ("ABBEY_VISION_ENDPOINT", "http://127.0.0.1:8282/v1"),
          ("ABBEY_VISION_MODEL", modelDir), ("ABBEY_VISION_KEY", ""), ("ABBEY_FM_MODE", "system"),
          ("ABBEY_FM_ENDPOINT", ""),
          ("ABBEY_FM_CLI", fmCli), ("ABBEY_FM_FALLBACK", "1"), ("ABBEY_FM_CAPABILITY_MANIFEST", manifest)],
         {"ANTHROPIC_API_KEY", "ABBEY_VISION_KEY"},
         "# Disabled by the MLX primary cutover; " + "preserved for rollback.")
  }

  /** Paths the renderers can quote without changing what is read back. */
  ghost predicate Quotable(path: string) {
    '\'' !in path && '\0' !in path && Clean(path)
  }

  ghost predicate Printable(s: string) {
    forall i :: 0 <= i < |s| ==> ' ' <= s[i] <= '~' && s[i] != '=' && s[i] != '\''
  }

  lemma PrintableIsClean(s: string)
    requires Printable(s)
    ensures Clean(s) && '=' !in s && '\'' !in s && '\0' !in s
  {
  }

  /** Printable text after a hash is a comment; a name is a key. */
  lemma PlanFromParts(plan: Plan)
    requires plan.header != plan.notice
    requires plan.header != "" && plan.header[0] == '#' && Printable(plan.header)
    requires plan.notice != "" && plan.notice[0] == '#' && Printable(plan.notice)
    requires DistinctKeys(plan.managed) && SecretsAreCleared(plan) && (!plan.mlx ==> plan.secrets == {})
    requires forall i :: 0 <= i < |plan.managed| ==>
               IsKey(plan.managed[i].0) && (Printable(plan.managed[i].1) || Quotable(plan.managed[i].1))
    ensures Valid(plan)
  {
  }

  lemma PrintableAppend(a: string, b: string)
    requires Printable(a) && Printable(b)
    ensures Printable(a + b)
  {
  }

  lemma FmLiterals()
    ensures Printable("# FM primary; managed by ") && Printable("deploy/configure-fm-primary.py.")
    ensures Printable("#") && Printable("pcc,system") && Printable("primary")
  {
  }

  lemma FmKeys()
    ensures IsKey("ABBEY_FM_MODE") && IsKey("ABBEY_FM_ROLE") && IsKey("ABBEY_FM_CLI")
            && IsKey("ABBEY_FM_CAPABILITY_MANIFEST")
  {
  }

  lemma FmPlanIsValid(cli: string, manifest: string)
    requires Quotable(cli) && Quotable(manifest)
    ensures Valid(FmPlan(cli, manifest))
  {
    hide Printable, Clean, IsKey, Quotable;
    FmLiterals();
    FmKeys();
    PlanFromParts(FmPlan(cli, manifest));
  }

  lemma MlxHeader()
    ensures Printable("# Qualified local providers; managed by ") && Printable("deploy/configure-mlx-primary.py.")
  {
  }

  lemma MlxNotice()
    ensures Printable("# Disabled by the MLX primary cutover; ") && Printable("preserved for rollback.")
  {
  }

  lemma MlxValues()
    ensures Printable("") && Printable("http://127.0.0.1:8282") && Printable("http://127.0.0.1:8282/v1")
            && Printable("remote")
    ensures Printable("on") && Printable("system") && Printable("1")
  {
  }

  lemma MlxEndpointKeys()
    ensures IsKey("ABBEY_BOT_LLM_ENDPOINT") && IsKey("ABBEY_VISION_ENDPOINT") && IsKey("ABBEY_FM_ENDPOINT")
    ensures IsKey("ABBEY_BOT_LLM_MODEL") && IsKey("ABBEY_VISION_MODEL")
  {
  }

  lemma MlxKeys()
    ensures IsKey("ANTHROPIC_API_KEY") && IsKey("ABBEY_BOT_LLM_TOOLS") && IsKey("ABBEY_VISION_PROVIDER")
            && IsKey("ABBEY_VISION_KEY")
    ensures IsKey("ABBEY_FM_FALLBACK")
  {
  }

  lemma MlxKeysDiffer(modelDir: string, fmCli: string, manifest: string)
    ensures DistinctKeys(MlxPlan(modelDir, fmCli, manifest).managed)
  {
  }

  lemma MlxHeaderIsAComment(modelDir: string, fmCli: string, manifest: string)
    ensures Comment(MlxPlan(modelDir, fmCli, manifest).header)
  {
    MlxHeader();
    hide Printable, Clean;
    PrintableAppend("# Qualified local providers; managed by ", "deploy/configure-mlx-primary.py.");
    PrintableIsClean("# Qualified local providers; managed by " + "deploy/configure-mlx-primary.py.");
  }

  lemma MlxPlanIsValid(modelDir: string, fmCli: string, manifest: string)
    requires Quotable(modelDir) && Quotable(fmCli) && Quotable(manifest)
    ensures Valid(MlxPlan(modelDir, fmCli, manifest))
  {
    hide Printable, Clean, IsKey, Quotable, DistinctKeys;
    MlxHeader();
    MlxNotice();
    MlxValues();
    PrintableAppend("# Qualified local providers; managed by ", "deploy/configure-mlx-primary.py.");
    PrintableAppend("# Disabled by the MLX primary cutover; ", "preserved for rollback.");
    FmKeys();
    MlxKeys();
    MlxEndpointKeys();
    MlxKeysDiffer(modelDir, fmCli, manifest);
    PlanFromParts(MlxPlan(modelDir, fmCli, manifest));
  }

  lemma {:induction false} SettingAt(managed: seq<(string, string)>, i: nat)
    requires i < |managed| && DistinctKeys(managed)
    ensures managed[i].0 in Settings(managed) && Settings(managed)[managed[i].0] == managed[i].1
  {
    var n := |managed| - 1;
    if i < n { SettingAt(managed[..n], i); }
  }

  /** What the parser requires of a file survives settings of other keys. */
  lemma RequiredCarriesOver(m: Values, s: Values)
    requires Required(m) && "DISCORD_TOKEN" !in s && "ABBEY_VOICE_GUILD_ID" !in s && "ABBEY_VOICE_CHANNEL_ID" !in s
    requires "ABBEY_BOT_LLM_ENDPOINT" in s ==> Present(s, "ABBEY_BOT_LLM_ENDPOINT")
    ensures Required(m + s)
  {
  }

  lemma NotManaged(managed: seq<(string, string)>, key: string)
    requires ValidPairs(managed) && DistinctKeys(managed) && forall i :: 0 <= i < |managed| ==> managed[i].0 != key
    ensures key !in Settings(managed)
  {
  }

  lemma FmSettings(cli: string, manifest: string)
    requires Quotable(cli) && Quotable(manifest)
    ensures var s := Settings(FmPlan(cli, manifest).managed);
            && "DISCORD_TOKEN" !in s && "ABBEY_VOICE_GUILD_ID" !in s && "ABBEY_VOICE_CHANNEL_ID" !in s
               && "ABBEY_BOT_LLM_ENDPOINT" !in s
  {
    FmPlanIsValid(cli, manifest);
    hide ValidPairs, DistinctKeys, Comment, SecretsAreCleared, Settings, Quotable;
    var managed := FmPlan(cli, manifest).managed;
    NotManaged(managed, "DISCORD_TOKEN");
    NotManaged(managed, "ABBEY_VOICE_GUILD_ID");
    NotManaged(managed, "ABBEY_VOICE_CHANNEL_ID");
    NotManaged(managed, "ABBEY_BOT_LLM_ENDPOINT");
  }

  /** Keys the parser's required configuration names and the mlx cutover leaves alone. */
  lemma MlxLeavesAlone(modelDir: string, fmCli: string, manifest: string, i: nat)
    requires var managed := MlxPlan(modelDir, fmCli, manifest).managed; i < |managed|
    ensures MlxPlan(modelDir, fmCli, manifest).managed[i].0 !in ["DISCORD_TOKEN", "ABBEY_VOICE_GUILD_ID",
                                                                 "ABBEY_VOICE_CHANNEL_ID"]
  {
  }

  lemma MlxEndpoint(modelDir: string, fmCli: string, manifest: string)
    ensures var managed := MlxPlan(modelDir, fmCli, manifest).managed;
            |managed| > 1 && managed[1] == ("ABBEY_BOT_LLM_ENDPOINT", "http://127.0.0.1:8282")
  {
  }

  lemma ValidParts(plan: Plan)
    requires Valid(plan)
    ensures ValidPairs(plan.managed) && DistinctKeys(plan.managed)
  {
  }

  lemma MlxSettings(modelDir: string, fmCli: string, manifest: string)
    requires Quotable(modelDir) && Quotable(fmCli) && Quotable(manifest)
    ensures var s := Settings(MlxPlan(modelDir, fmCli, manifest).managed);
            && "DISCORD_TOKEN" !in s && "ABBEY_VOICE_GUILD_ID" !in s && "ABBEY_VOICE_CHANNEL_ID" !in s
               && Present(s, "ABBEY_BOT_LLM_ENDPOINT")
  {
    hide *;
    MlxPlanIsValid(modelDir, fmCli, manifest);
    ValidParts(MlxPlan(modelDir, fmCli, manifest));
    var managed := MlxPlan(modelDir, fmCli, manifest).managed;
    forall i | 0 <= i < |managed|
      ensures managed[i].0 !in ["DISCORD_TOKEN", "ABBEY_VOICE_GUILD_ID", "ABBEY_VOICE_CHANNEL_ID"] {
      MlxLeavesAlone(modelDir, fmCli, manifest, i);
    }
    NotManaged(managed, "DISCORD_TOKEN");
    NotManaged(managed, "ABBEY_VOICE_GUILD_ID");
    NotManaged(managed, "ABBEY_VOICE_CHANNEL_ID");
    MlxEndpoint(modelDir, fmCli, manifest);
    SettingAt(managed, 1);
    EndpointIsPresent(Settings(managed));
  }

  lemma EndpointIsPresent(m: Values)
    requires "ABBEY_BOT_LLM_ENDPOINT" in m && m["ABBEY_BOT_LLM_ENDPOINT"] == "http://127.0.0.1:8282"
    ensures Present(m, "ABBEY_BOT_LLM_ENDPOINT")
  {
  }

  /** The plan of either cutover program. */
  function CutoverPlan(mlx: bool, modelDir: string, cli: string, manifest: string): Plan {
    if mlx then MlxPlan(modelDir, cli, manifest) else FmPlan(cli, manifest)
  }

  lemma PlanIs(mlx: bool, modelDir: string, cli: string, manifest: string)
    ensures CutoverPlan(mlx, modelDir, cli, manifest) == if mlx then MlxPlan(modelDir, cli, manifest)
                                                         else FmPlan(cli, manifest)
  {
  }
}
