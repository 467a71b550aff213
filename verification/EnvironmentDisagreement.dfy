/**
 Environment files that a cutover does not leave as the parser read them: one of each kind.
 */
module EnvironmentDisagreement {
  import opened Wrappers
  import opened Text
  import opened EnvironmentFile
  import opened EnvironmentKeys
  import opened EnvironmentLines
  import opened EnvironmentRender
  import opened EnvironmentAgreement

  const FORM_FEED := '\U{000C}'
  const NO_BREAK_SPACE := '\U{00A0}'

  const TOKEN_LINE := "DISCORD_TOKEN=x"
  const SEVERED_LINE := "A=b"
  const MODE_LINE := "ABBEY_FM_MODE=z"

  /** A token line and one more. */
  function TwoLines(second: string): string {
    TOKEN_LINE + "\n" + (second + "\n")
  }

  /** A setting that goes on after a form feed. */
  function Severed(rest: string): string {
    "b" + [FORM_FEED] + rest
  }

  /** A managed key whose export is followed by a no-break space. */
  const WIDE_EXPORT := "export" + [NO_BREAK_SPACE] + MODE_LINE

  // ---------------------------------------------------------------- the literals

  lemma Names()
    ensures IsKey("DISCORD_TOKEN") && IsKey("A") && IsKey("ABBEY_FM_MODE")
    ensures TOKEN_LINE == Assignment("DISCORD_TOKEN", "x") && SEVERED_LINE == Assignment("A", "b")
            && MODE_LINE == Assignment("ABBEY_FM_MODE", "z")
  {
  }

  lemma Characters()
    ensures !RustSpace('x') && !RustSpace('b') && !RustSpace('c') && !RustSpace('z') && !RustSpace('A')
            && !RustSpace('e')
    ensures RustSpace(FORM_FEED) && RustSpace(NO_BREAK_SPACE) && !Blank(NO_BREAK_SPACE)
    ensures LineBreak('\n') && LineBreak(FORM_FEED) && !LineBreak(NO_BREAK_SPACE)
  {
  }

  lemma CleanLines()
    ensures Clean(TOKEN_LINE) && Clean(SEVERED_LINE) && Clean(MODE_LINE) && Clean("c") && Clean("export")
    ensures NoNul(TOKEN_LINE) && NoNul(SEVERED_LINE) && NoNul(MODE_LINE) && NoNul("c") && NoNul("export")
  {
  }

  lemma Firsts()
    ensures TOKEN_LINE[0] == 'D' && SEVERED_LINE[0] == 'A' && MODE_LINE[0] == 'A' && MODE_LINE[|MODE_LINE| - 1] == 'z'
            && |MODE_LINE| == 15
    ensures '=' !in "c" && |TOKEN_LINE| == 15
  {
  }

  lemma SeveredShape(rest: string)
    ensures Assignment("A", Severed(rest)) == SEVERED_LINE + [FORM_FEED] + rest
  {
  }

  // ---------------------------------------------------------------- what the parser reads

  lemma PlainValue(key: string, value: string)
    requires IsKey(key) && value != "" && !RustSpace(value[0]) && !RustSpace(value[|value| - 1]) && value[0] != '\''
             && value[0] != '\"'
    ensures ParseLine(Assignment(key, value)) == Assign(key, value) && PlainExport(Assignment(key, value))
    ensures ParseBody(Assignment(key, value)) == Assign(key, value)
  {
    hide *;
    UnquotePlain(value);
    AssignmentParses(key, value, value);
  }

  lemma LiteralsParse()
    ensures ParseLine(TOKEN_LINE) == Assign("DISCORD_TOKEN", "x") && ParseLine(SEVERED_LINE) == Assign("A", "b")
    ensures ParseLine(MODE_LINE) == ParseBody(MODE_LINE) == Assign("ABBEY_FM_MODE", "z") && PlainExport(MODE_LINE)
  {
    hide *;
    Names();
    Characters();
    PlainValue("DISCORD_TOKEN", "x");
    PlainValue("A", "b");
    PlainValue("ABBEY_FM_MODE", "z");
  }

  lemma SeveredParses(rest: string)
    requires rest != "" && !RustSpace(rest[|rest| - 1])
    ensures ParseLine(Assignment("A", Severed(rest))) == Assign("A", Severed(rest))
  {
    Names();
    Characters();
    hide RustSpace, ParseLine, IsKey, Assignment, PlainExport, ParseBody;
    PlainValue("A", Severed(rest));
  }

  lemma RightSpaceIsIgnored(l: string, c: char)
    requires l != "" && !RustSpace(l[0]) && !RustSpace(l[|l| - 1]) && RustSpace(c)
    ensures ParseLine(l + [c]) == ParseLine(l)
  {
  }

  lemma CStaysC()
    ensures Strip("c", RustSpace) == "c" && Strip("c", PySpace) == "c" && IndexOf("c", '=') == 1 && !Exported("c")
  {
    CIsNoSpace();
    hide RustSpace, PySpace, Strip;
    NothingToStrip("c", RustSpace);
    NothingToStrip("c", PySpace);
  }

  lemma CIsNoSpace()
    ensures !RustSpace('c') && !PySpace('c')
  {
  }

  lemma NoKeyIsBad()
    ensures ParseLine("c") == Bad && Strip("c", PySpace) != ""
  {
    CStaysC();
    hide Strip, Exported, IndexOf;
  }

  lemma ExportedBody(c: char, body: string)
    requires RustSpace(c) && body != "" && !RustSpace(body[0])
    ensures var line := "export" + [c] + body; Exported(line) && AfterExport(line) == body && line[6] == c
  {
  }

  lemma WideExportParses()
    ensures ParseLine(WIDE_EXPORT) == Assign("ABBEY_FM_MODE", "z") && !PlainExport(WIDE_EXPORT)
  {
    LiteralsParse();
    Characters();
    Firsts();
    hide RustSpace, ParseBody, Exported, AfterExport, Blank, ParseLine;
    ExportedBody(NO_BREAK_SPACE, MODE_LINE);
    ParseOf(WIDE_EXPORT);
    hide Strip;
  }

  lemma ParseOf(line: string)
    requires Strip(line, RustSpace) == line && line != "" && line[0] != '#'
    ensures ParseLine(line) == ParseBody(AfterExport(line))
  {
  }

  lemma TwoParse(a: string, b: string, key: string, value: string)
    requires ParseLine(a) == Assign("DISCORD_TOKEN", "x") && ParseLine(b) == Assign(key, value)
             && key != "DISCORD_TOKEN"
    ensures Parsed([a, b]) == Some(map["DISCORD_TOKEN" := "x", key := value])
  {
    hide ParseLine;
    ParsedAdd([], a);
  }

  lemma TwoLinesSplit(second: string)
    requires '\n' !in second
    ensures Split(TwoLines(second)) == [TOKEN_LINE, second] + [""]
  {
    hide Clean;
    SplitLine(TOKEN_LINE, second + "\n");
    SplitLine(second, "");
    assert second + "\n" + "" == second + "\n" && Split("") == [""];
  }

  lemma TokenSuffices(m: Values)
    requires "DISCORD_TOKEN" in m && m["DISCORD_TOKEN"] == "x" && "ABBEY_VOICE_GUILD_ID" !in m
             && "ABBEY_VOICE_CHANNEL_ID" !in m
    ensures Required(m)
  {
  }

  lemma {:induction false} LengthBound(s: string)
    ensures Utf8Length(s) <= 4 * |s|
  {
    if s != "" { LengthBound(s[..|s| - 1]); }
  }

  lemma TwoLinesFit(second: string)
    requires NoNul(second) && |second| <= 1000
    ensures NoNul(TwoLines(second)) && Utf8Length(TwoLines(second)) <= MAX_ENV_BYTES
  {
    LengthBound(TwoLines(second));
    CleanLines();
    OneNoNul();
    hide NoNul, Utf8Length;
    NoNulAppend(second, "\n");
    NoNulAppend(TOKEN_LINE, "\n");
    NoNulAppend(TOKEN_LINE + "\n", second + "\n");
  }

  /** The parser accepts a file of the token and one more setting. */
  lemma TwoLinesRead(second: string, key: string, value: string)
    requires '\n' !in second && NoNul(second) && |second| <= 1000 && ParseLine(second) == Assign(key, value)
    requires key == "A" || key == "ABBEY_FM_MODE"
    ensures EnvironmentValues(TwoLines(second)) == Success(map["DISCORD_TOKEN" := "x", key := value])
    ensures Parsed(Split(TwoLines(second))) == Some(map["DISCORD_TOKEN" := "x", key := value])
  {
    hide *;
    LiteralsParse();
    TwoLinesSplit(second);
    EmptyLineSkips([TOKEN_LINE, second]);
    TwoParse(TOKEN_LINE, second, key, value);
    TokenSuffices(map["DISCORD_TOKEN" := "x", key := value]);
    TwoLinesFit(second);
    ReadsAs(TwoLines(second), map["DISCORD_TOKEN" := "x", key := value]);
  }

  // ---------------------------------------------------------------- what the renderers keep

  /** One piece of a text, ended by a break other than a carriage return. */
  lemma PieceBy(p: string, b: char, rest: string)
    requires Clean(p) && LineBreak(b) && b != '\r'
    ensures SplitKeep(p + [b] + rest) == [p + [b]] + SplitKeep(rest)
    ensures SplitLines(p + [b] + rest) == [p] + SplitLines(rest)
  {
    var s := p + [b] + rest;
    assert s[|p|] == b;
    forall k | 0 <= k < |p| ensures s[k] == p[k] {}
    assert s[..|p|] == p && s[..|p| + 1] == p + [b] && s[|p| + 1..] == rest;
    hide BreakAt, AfterBreak, LineBreak;
  }

  lemma LastPiece(p: string)
    requires Clean(p)
    ensures SplitKeep(p + "\n") == [p + "\n"] && SplitLines(p + "\n") == [p]
  {
    Characters();
    hide LineBreak, Clean, SplitKeep, SplitLines, BreakAt, AfterBreak;
    PieceBy(p, '\n', "");
    NoPieces("");
    assert p + ['\n'] + "" == p + "\n" && p + ['\n'] == p + "\n";
  }

  lemma TwoLinesPieces(second: string)
    ensures SplitKeep(TwoLines(second)) == [TOKEN_LINE + "\n"] + SplitKeep(second + "\n")
    ensures SplitLines(TwoLines(second)) == [TOKEN_LINE] + SplitLines(second + "\n")
  {
    CleanLines();
    Characters();
    hide LineBreak, Clean, SplitKeep, SplitLines;
    PieceBy(TOKEN_LINE, '\n', second + "\n");
  }

  lemma SeveredPieces(rest: string)
    requires Clean(rest)
    ensures var s := TwoLines(Assignment("A", Severed(rest)));
            && SplitKeep(s) == [TOKEN_LINE + "\n", SEVERED_LINE + [FORM_FEED], rest + "\n"]
            && SplitLines(s) == [TOKEN_LINE, SEVERED_LINE, rest]
  {
    CleanLines();
    Characters();
    hide LineBreak, Clean, SplitKeep, SplitLines, Assignment, TwoLines;
    var second := Assignment("A", Severed(rest));
    TwoLinesPieces(second);
    SeveredShape(rest);
    PieceBy(SEVERED_LINE, FORM_FEED, rest + "\n");
    LastPiece(rest);
    assert second + "\n" == SEVERED_LINE + [FORM_FEED] + (rest + "\n");
  }

  /** A line that mlx keeps as it is. */
  ghost predicate Stays(plan: Plan, line: string) {
    ManagedKey(plan, line).None? && Keep(plan, line) == [line]
  }

  ghost predicate AllStay(plan: Plan, lines: seq<string>) {
    forall i :: 0 <= i < |lines| ==> Stays(plan, lines[i])
  }

  /** A line that starts with no hash, and has no key or only an unmanaged one, is kept. */
  lemma LineStays(plan: Plan, line: string)
    requires Valid(plan) && line != "" && line[0] != '#'
    requires '=' !in line || (ParseLine(line).Assign? && ParseLine(line).key !in Keys(plan.managed))
    ensures Stays(plan, line)
  {
    HeaderHash(plan);
    hide ParseLine, AssignedKey, Keys, PlainExport, Valid;
    if '=' !in line { NoEqualsNoKey(plan, line); } else { MatchedKey(line); }
  }

  lemma {:induction false} KeptAsIs(plan: Plan, lines: seq<string>)
    requires AllStay(plan, lines)
    ensures Kept(plan, lines) == lines
  {
    hide ManagedKey, Keep;
    if lines != [] {
      var n := |lines| - 1;
      KeptAsIs(plan, lines[..n]);
    }
  }

  lemma StayingIsDistinct(plan: Plan, lines: seq<string>)
    requires AllStay(plan, lines)
    ensures Distinct(plan, lines)
  {
  }

  /** fm keeps a piece that starts with no hash and assigns no managed key, or none it matches. */
  lemma PieceStays(plan: Plan, p: string)
    requires Valid(plan) && p != "" && p[0] != '#' && ParseLine(p).Assign?
    requires ParseLine(p).key !in Keys(plan.managed) || !PlainExport(p)
    ensures !Dropped(plan, p) && ManagedKey(plan, p).None?
  {
    hide *;
    HeaderHash(plan);
    BareIsPrefix(p);
    MatchedKey(p);
    UnmatchedIsUnmanaged(plan, p);
    DroppedIs(plan, p);
  }

  lemma UnmatchedIsUnmanaged(plan: Plan, p: string)
    ensures AssignedKey(p).None? || AssignedKey(p).value !in Keys(plan.managed) ==> ManagedKey(plan, p).None?
  {
  }

  lemma PieceGoes(plan: Plan, p: string)
    requires ParseLine(p).Assign? && PlainExport(p) && ParseLine(p).key in Keys(plan.managed)
    ensures Dropped(plan, p) && ManagedKey(plan, p) == Some(ParseLine(p).key)
  {
    hide ParseLine, AssignedKey, Keys, PlainExport, Bare;
    MatchedKey(p);
  }

  /** One more piece, which has no managed key that a piece before it has. */
  lemma NextPiece(plan: Plan, before: seq<string>, p: string, pieces: seq<string>, kept: string)
    requires pieces == before + [p] && Concat(FmKept(plan, before)) == kept && Distinct(plan, before)
    requires ManagedKey(plan, p).Some? ==> ManagedKey(plan, p).value !in Seen(plan, before)
    ensures Concat(FmKept(plan, pieces)) == kept + (if Dropped(plan, p) then "" else p) && Distinct(plan, pieces)
    ensures Seen(plan, pieces) == Seen(plan, before) +
              (if ManagedKey(plan, p).Some? then {ManagedKey(plan, p).value} else {})
  {
    hide ManagedKey, Bare;
    assert pieces[..|before|] == before;
    if !Dropped(plan, p) { ConcatAppend(FmKept(plan, before), p); }
    assert FmKept(plan, before) + [] == FmKept(plan, before);
  }

  lemma NoPieceYet(plan: Plan)
    ensures Concat(FmKept(plan, [])) == "" && Distinct(plan, []) && Seen(plan, []) == {}
  {
  }

  // ---------------------------------------------------------------- the managed keys

  lemma MlxUnmanaged(modelDir: string, cli: string, manifest: string)
    ensures "A" !in Keys(MlxPlan(modelDir, cli, manifest).managed)
            && "DISCORD_TOKEN" !in Keys(MlxPlan(modelDir, cli, manifest).managed)
  {
  }

  lemma FmUnmanaged(cli: string, manifest: string)
    ensures "A" !in Keys(FmPlan(cli, manifest).managed) && "DISCORD_TOKEN" !in Keys(FmPlan(cli, manifest).managed)
    ensures "ABBEY_FM_MODE" in Keys(FmPlan(cli, manifest).managed) && "C" !in Keys(FmPlan(cli, manifest).managed)
  {
    assert FmPlan(cli, manifest).managed[0].0 == "ABBEY_FM_MODE";
  }

  // ---------------------------------------------------------------- mlx and a form feed

  lemma BrokenLinesStay(plan: Plan)
    requires Valid(plan) && "A" !in Keys(plan.managed) && "DISCORD_TOKEN" !in Keys(plan.managed)
    ensures AllStay(plan, [TOKEN_LINE, SEVERED_LINE, "c"])
  {
    LiteralsParse();
    hide ParseLine, Keys, Stays, Valid, PlainExport, ParseBody;
    LineStays(plan, TOKEN_LINE);
    LineStays(plan, SEVERED_LINE);
    LineStays(plan, "c");
  }

  lemma BadAtTheEnd(lines: seq<string>)
    requires lines != [] && ParseLine(lines[|lines| - 1]) == Bad && Strip(lines[|lines| - 1], PySpace) != ""
    ensures Trimmed(lines) == lines && Parsed(lines).None?
  {
    hide ParseLine, Strip, Parsed;
    var n := |lines| - 1;
    assert lines == lines[..n] + [lines[n]];
    ParsedAdd(lines[..n], lines[n]);
  }

  lemma BrokenLinesKept(plan: Plan, original: string)
    requires Valid(plan) && plan.mlx && "A" !in Keys(plan.managed) && "DISCORD_TOKEN" !in Keys(plan.managed)
    requires SplitLines(original) == [TOKEN_LINE, SEVERED_LINE, "c"]
    ensures Rendered(plan, original).Some? && Parsed(Flat(Left(plan, Chunks(original)))).None?
  {
    hide *;
    var lines := [TOKEN_LINE, SEVERED_LINE, "c"];
    BrokenLinesStay(plan);
    KeptAsIs(plan, lines);
    StayingIsDistinct(plan, lines);
    RenderedLines(plan, original);
    NoKeyIsBad();
    BadAtTheEnd(lines);
    MlxBlocks(plan, original);
    TrimBlocksIsTrimmed(Blocks(plan, Chunks(original)));
    LeftIs(plan, Chunks(original));
  }

  lemma NoneStaysNone(a: Option<Values>, b: Option<Values>)
    requires a.None? || (b.Some? && exists k :: k in a.value && k in b.value)
    ensures Both(a, b).None?
  {
  }

  lemma SeveredIsShort(rest: string)
    requires Clean(rest) && NoNul(rest) && |rest| <= 100
    ensures var s := Assignment("A", Severed(rest)); '\n' !in s && NoNul(s) && |s| <= 1000
  {
  }

  /** mlx: a setting that holds a form feed leaves a line the parser refuses, and with it the whole file. */
  lemma MlxCanBreakAFile(modelDir: string, cli: string, manifest: string)
    requires Quotable(modelDir) && Quotable(cli) && Quotable(manifest)
    ensures var plan, original := MlxPlan(modelDir, cli, manifest), TwoLines(Assignment("A", Severed("c")));
            && EnvironmentValues(original).Success? && Rendered(plan, original).Some?
            && EnvironmentValues(Rendered(plan, original).value) == Failure(Syntax)
  {
    hide *;
    var plan, original := MlxPlan(modelDir, cli, manifest), TwoLines(Assignment("A", Severed("c")));
    MlxPlanIsValid(modelDir, cli, manifest);
    PlanKinds(modelDir, cli, manifest);
    CleanLines();
    Characters();
    SeveredParses("c");
    SeveredIsShort("c");
    TwoLinesRead(Assignment("A", Severed("c")), "A", Severed("c"));
    SeveredPieces("c");
    MlxUnmanaged(modelDir, cli, manifest);
    BrokenLinesKept(plan, original);
    MlxReads(plan, original);
    NoneStaysNone(Parsed(Flat(Left(plan, Chunks(original)))), Some(Settings(plan.managed)));
    Unreadable(Rendered(plan, original).value);
  }

  // ---------------------------------------------------------------- fm and a form feed

  lemma SeveredPieceParses()
    ensures var p := SEVERED_LINE + [FORM_FEED]; p[0] != '#' && ParseLine(p) == ParseLine(p + "\n") == Assign("A", "b")
    ensures ParseLine(TOKEN_LINE + "\n") == Assign("DISCORD_TOKEN", "x") && (TOKEN_LINE + "\n")[0] != '#'
    ensures ParseLine(MODE_LINE + "\n") == Assign("ABBEY_FM_MODE", "z") && PlainExport(MODE_LINE + "\n")
  {
    LiteralsParse();
    Firsts();
    Characters();
    assert SEVERED_LINE[|SEVERED_LINE| - 1] == 'b';
    hide ParseLine, RustSpace, PlainExport, ParseBody, LineBreak, Blank;
    RightSpaceIsIgnored(SEVERED_LINE, FORM_FEED);
    NewlineIsIgnored(SEVERED_LINE + [FORM_FEED]);
    NewlineIsIgnored(TOKEN_LINE);
    NewlineIsIgnored(MODE_LINE);
    PlainIgnoresNewline(MODE_LINE);
  }

  lemma HiddenText(plan: Plan, original: string)
    requires Valid(plan) && !plan.mlx && "A" !in Keys(plan.managed) && "DISCORD_TOKEN" !in Keys(plan.managed)
             && "ABBEY_FM_MODE" in Keys(plan.managed)
    requires SplitKeep(original) == [TOKEN_LINE + "\n", SEVERED_LINE + [FORM_FEED], MODE_LINE + "\n"]
    ensures FmText(plan, original) == TOKEN_LINE + "\n" + (SEVERED_LINE + [FORM_FEED])
            && Distinct(plan, SplitKeep(original))
  {
    SeveredPieceParses();
    hide ParseLine, Keys, PlainExport, SplitKeep, Valid, Distinct, Dropped, FmKept, Concat;
    var a, b, c := TOKEN_LINE + "\n", SEVERED_LINE + [FORM_FEED], MODE_LINE + "\n";
    PieceStays(plan, a);
    PieceStays(plan, b);
    PieceGoes(plan, c);
    NoPieceYet(plan);
    NextPiece(plan, [], a, [a], "");
    NextPiece(plan, [a], b, [a, b], a);
    NextPiece(plan, [a, b], c, [a, b, c], a + b);
  }

  lemma TwoChunks(a: string, b: string)
    requires Ended(a) && b != "" && '\n' !in b
    ensures Chunks(Finished(a + b)) == [a, b + "\n"]
  {
    hide *;
    EndsAsLine(a);
    FinishedLine(a, b);
    ChunksAppend(a, b + "\n");
    EndedAlone(a);
    ChunkAlone(a);
    ChunkAlone(b + "\n");
  }

  lemma EndsAsLine(a: string)
    requires Ended(a)
    ensures EndsLine(a)
  {
  }

  lemma EndedAlone(a: string)
    requires Ended(a)
    ensures a != "" && '\n' !in a[..|a| - 1]
  {
  }

  lemma SeveredEnds()
    ensures Ended(TOKEN_LINE + "\n") && '\n' !in SEVERED_LINE + [FORM_FEED] && SEVERED_LINE + [FORM_FEED] != ""
  {
  }

  lemma ApartFromSettings(plan: Plan, key: string, value: string)
    requires Settings(plan.managed).Keys == Keys(plan.managed) && "DISCORD_TOKEN" !in Keys(plan.managed)
             && key !in Keys(plan.managed)
    ensures var m := map["DISCORD_TOKEN" := "x", key := value];
            Both(Some(m), Some(Settings(plan.managed))) == Some(m + Settings(plan.managed))
  {
  }

  /** fm: a managed assignment behind a form feed is taken out of the setting that holds it. */
  lemma FmCanCutAValue(cli: string, manifest: string)
    requires Quotable(cli) && Quotable(manifest)
    ensures var plan, original := FmPlan(cli, manifest), TwoLines(Assignment("A", Severed(MODE_LINE)));
            && EnvironmentValues(original) == Success(map["DISCORD_TOKEN" := "x", "A" := Severed(MODE_LINE)])
            && Rendered(plan, original).Some?
            && Parsed(Split(Rendered(plan, original).value)) ==
                 Some(map["DISCORD_TOKEN" := "x", "A" := "b"] + Settings(plan.managed))
  {
    hide *;
    var plan, original := FmPlan(cli, manifest), TwoLines(Assignment("A", Severed(MODE_LINE)));
    var a, b := TOKEN_LINE + "\n", SEVERED_LINE + [FORM_FEED];
    FmPlanIsValid(cli, manifest);
    PlanKinds("", cli, manifest);
    CleanLines();
    Characters();
    Firsts();
    SeveredParses(MODE_LINE);
    SeveredIsShort(MODE_LINE);
    TwoLinesRead(Assignment("A", Severed(MODE_LINE)), "A", Severed(MODE_LINE));
    SeveredPieces(MODE_LINE);
    FmUnmanaged(cli, manifest);
    HiddenText(plan, original);
    FmRenderedIs(plan, original);
    FmTextReads(plan, original);
    SeveredEnds();
    TwoChunks(a, b);
    SeveredPieceParses();
    TwoParse(a, b + "\n", "A", "b");
    AppendedParse(plan);
    ApartFromSettings(plan, "A", "b");
  }

  // ---------------------------------------------------------------- fm and a lost newline

  const LAST_LINE := "C=d"

  /** A setting severed before a managed assignment, and another line. */
  const JOINING: string := TwoLines(Assignment("A", Severed(MODE_LINE))) + (LAST_LINE + "\n")

  lemma LastLine()
    ensures IsKey("C") && LAST_LINE == Assignment("C", "d") && Clean(LAST_LINE) && NoNul(LAST_LINE)
    ensures !RustSpace('d') && !RustSpace('C') && LAST_LINE[0] == 'C' && LAST_LINE[|LAST_LINE| - 1] == 'd'
            && |LAST_LINE| == 3
  {
  }

  lemma LastLineParses()
    ensures ParseLine(LAST_LINE) == ParseLine(LAST_LINE + "\n") == Assign("C", "d") && (LAST_LINE + "\n")[0] != '#'
  {
    LastLine();
    hide RustSpace, ParseLine, IsKey, Assignment, PlainExport, ParseBody, Clean, NoNul;
    PlainValue("C", "d");
    NewlineIsIgnored(LAST_LINE);
  }

  lemma ThreeParse(a: string, b: string, c: string, value: string)
    requires ParseLine(a) == Assign("DISCORD_TOKEN", "x") && ParseLine(b) == Assign("A", value)
             && ParseLine(c) == Assign("C", "d")
    ensures Parsed([a, b, c]) == Some(map["DISCORD_TOKEN" := "x", "A" := value, "C" := "d"])
  {
    hide ParseLine;
    TwoParse(a, b, "A", value);
    assert [a, b, c] == [a, b] + [c];
  }

  lemma JoiningSplits()
    ensures Split(JOINING) == [TOKEN_LINE, Assignment("A", Severed(MODE_LINE)), LAST_LINE] + [""]
  {
    CleanLines();
    LastLine();
    Firsts();
    SeveredIsShort(MODE_LINE);
    hide Clean, NoNul, Assignment, Severed;
    var second := Assignment("A", Severed(MODE_LINE));
    CleanHasNoNewline(TOKEN_LINE);
    CleanHasNoNewline(LAST_LINE);
    SplitLine(TOKEN_LINE, second + "\n" + (LAST_LINE + "\n"));
    SplitLine(second, LAST_LINE + "\n");
    SplitLine(LAST_LINE, "");
    assert JOINING == TOKEN_LINE + "\n" + (second + "\n" + (LAST_LINE + "\n"));
    assert LAST_LINE + "\n" + "" == LAST_LINE + "\n" && Split("") == [""];
  }

  lemma JoiningFits()
    ensures NoNul(JOINING) && Utf8Length(JOINING) <= MAX_ENV_BYTES
  {
    CleanLines();
    LastLine();
    OneNoNul();
    hide Clean, NoNul, Utf8Length, Assignment, Severed;
    SeveredIsShort(MODE_LINE);
    TwoLinesFit(Assignment("A", Severed(MODE_LINE)));
    NoNulAppend(LAST_LINE, "\n");
    NoNulAppend(TwoLines(Assignment("A", Severed(MODE_LINE))), LAST_LINE + "\n");
    LengthBound(JOINING);
  }

  lemma JoiningReads()
    ensures EnvironmentValues(JOINING) == Success(map["DISCORD_TOKEN" := "x", "A" := Severed(MODE_LINE), "C" := "d"])
  {
    hide *;
    var m := map["DISCORD_TOKEN" := "x", "A" := Severed(MODE_LINE), "C" := "d"];
    LiteralsParse();
    LastLineParses();
    Firsts();
    Characters();
    SeveredParses(MODE_LINE);
    JoiningSplits();
    ThreeParse(TOKEN_LINE, Assignment("A", Severed(MODE_LINE)), LAST_LINE, Severed(MODE_LINE));
    EmptyLineSkips([TOKEN_LINE, Assignment("A", Severed(MODE_LINE)), LAST_LINE]);
    TokenSuffices(m);
    JoiningFits();
    ReadsAs(JOINING, m);
  }

  lemma JoiningPieces()
    ensures SplitKeep(JOINING) == [TOKEN_LINE + "\n", SEVERED_LINE + [FORM_FEED], MODE_LINE + "\n", LAST_LINE + "\n"]
  {
    CleanLines();
    Characters();
    LastLine();
    hide LineBreak, Clean, NoNul, SplitKeep, SplitLines, Assignment, RustSpace;
    var last := LAST_LINE + "\n";
    SeveredShape(MODE_LINE);
    PieceBy(TOKEN_LINE, '\n', SEVERED_LINE + [FORM_FEED] + (MODE_LINE + "\n" + last));
    PieceBy(SEVERED_LINE, FORM_FEED, MODE_LINE + "\n" + last);
    PieceBy(MODE_LINE, '\n', last);
    LastPiece(LAST_LINE);
    assert JOINING == TOKEN_LINE + ['\n'] + (SEVERED_LINE + [FORM_FEED] + (MODE_LINE + "\n" + last));
  }

  lemma JoinedText(plan: Plan)
    requires Valid(plan) && !plan.mlx && "A" !in Keys(plan.managed) && "DISCORD_TOKEN" !in Keys(plan.managed)
    requires "C" !in Keys(plan.managed) && "ABBEY_FM_MODE" in Keys(plan.managed)
    ensures FmText(plan, JOINING) == TOKEN_LINE + "\n" + (SEVERED_LINE + [FORM_FEED] + (LAST_LINE + "\n"))
    ensures Distinct(plan, SplitKeep(JOINING))
  {
    hide *;
    SeveredPieceParses();
    LastLineParses();
    JoiningPieces();
    var a, b, c, d := TOKEN_LINE + "\n", SEVERED_LINE + [FORM_FEED], MODE_LINE + "\n", LAST_LINE + "\n";
    PieceStays(plan, a);
    PieceStays(plan, b);
    PieceGoes(plan, c);
    PieceStays(plan, d);
    NoPieceYet(plan);
    NextPiece(plan, [], a, [a], "");
    NextPiece(plan, [a], b, [a, b], a);
    NextPiece(plan, [a, b], c, [a, b, c], a + b);
    NextPiece(plan, [a, b, c], d, [a, b, c, d], a + b);
    TextOfPieces(plan, JOINING);
    assert a + b + d == a + (b + d);
  }

  lemma JoinedChunks()
    ensures var joined := Assignment("A", Severed(LAST_LINE));
            Chunks(Finished(TOKEN_LINE + "\n" + (SEVERED_LINE + [FORM_FEED] + (LAST_LINE + "\n")))) ==
              [TOKEN_LINE + "\n", joined + "\n"]
  {
    hide *;
    SeveredEnds();
    LastLine();
    CleanHasNoNewline(LAST_LINE);
    SeveredShape(LAST_LINE);
    var a, joined := TOKEN_LINE + "\n", Assignment("A", Severed(LAST_LINE));
    TwoChunks(a, joined);
    FinishedLine(a, joined);
    FinishedLine(a, joined + "\n");
    assert SEVERED_LINE + [FORM_FEED] + (LAST_LINE + "\n") == joined + "\n";
  }

  /**
   fm: with the managed assignment goes the newline behind it, and the next setting becomes part
   of the one before.
   */
  lemma FmCanLoseASetting(cli: string, manifest: string)
    requires Quotable(cli) && Quotable(manifest)
    ensures var plan := FmPlan(cli, manifest);
            && EnvironmentValues(JOINING) == Success(map["DISCORD_TOKEN" := "x", "A" := Severed(MODE_LINE), "C" := "d"])
            && Rendered(plan, JOINING).Some?
            && Parsed(Split(Rendered(plan, JOINING).value)) ==
               Some(map["DISCORD_TOKEN" := "x", "A" := Severed(LAST_LINE)] + Settings(plan.managed))
  {
    hide *;
    var plan := FmPlan(cli, manifest);
    FmPlanIsValid(cli, manifest);
    PlanKinds("", cli, manifest);
    FmUnmanaged(cli, manifest);
    JoiningReads();
    JoinedText(plan);
    FmRenderedIs(plan, JOINING);
    FmTextReads(plan, JOINING);
    JoinedChunks();
    LastLine();
    SeveredParses(LAST_LINE);
    SeveredPieceParses();
    NewlineIsIgnored(Assignment("A", Severed(LAST_LINE)));
    TwoParse(TOKEN_LINE + "\n", Assignment("A", Severed(LAST_LINE)) + "\n", "A", Severed(LAST_LINE));
    AppendedParse(plan);
    ApartFromSettings(plan, "A", Severed(LAST_LINE));
  }

  // ---------------------------------------------------------------- fm and a wide export

  lemma WideIsClean()
    ensures Clean(WIDE_EXPORT) && NoNul(WIDE_EXPORT) && |WIDE_EXPORT| <= 1000 && WIDE_EXPORT[0] == 'e'
  {
  }

  lemma WideText(plan: Plan, original: string)
    requires Valid(plan) && !plan.mlx && "DISCORD_TOKEN" !in Keys(plan.managed) && original == TwoLines(WIDE_EXPORT)
    ensures FmText(plan, original) == original && Distinct(plan, SplitKeep(original))
  {
    hide *;
    var a, b := TOKEN_LINE + "\n", WIDE_EXPORT + "\n";
    SeveredPieceParses();
    WideExportParses();
    WideIsClean();
    NewlineIsIgnored(WIDE_EXPORT);
    PlainIgnoresNewline(WIDE_EXPORT);
    PieceStays(plan, a);
    PieceStays(plan, b);
    TwoLinesPieces(WIDE_EXPORT);
    LastPiece(WIDE_EXPORT);
    NoPieceYet(plan);
    NextPiece(plan, [], a, [a], "");
    NextPiece(plan, [a], b, [a, b], a);
    TextOfPieces(plan, original);
    TwoLinesAre(WIDE_EXPORT);
    assert [a] + [b] == [a, b];
  }

  lemma TwoLinesAre(second: string)
    ensures TwoLines(second) == TOKEN_LINE + "\n" + (second + "\n")
  {
  }

  lemma FinishedAlready(second: string)
    ensures Finished(TwoLines(second)) == TwoLines(second)
  {
  }

  /** fm: a managed key behind a wide export is left in place and assigned again, so the file is refused. */
  lemma FmCanAssignTwice(cli: string, manifest: string)
    requires Quotable(cli) && Quotable(manifest)
    ensures var plan, original := FmPlan(cli, manifest), TwoLines(WIDE_EXPORT);
            && EnvironmentValues(original).Success? && Rendered(plan, original).Some?
            && EnvironmentValues(Rendered(plan, original).value) == Failure(Syntax)
  {
    hide *;
    var plan, original := FmPlan(cli, manifest), TwoLines(WIDE_EXPORT);
    FmPlanIsValid(cli, manifest);
    PlanKinds("", cli, manifest);
    WideExportParses();
    WideIsClean();
    CleanHasNoNewline(WIDE_EXPORT);
    TwoLinesRead(WIDE_EXPORT, "ABBEY_FM_MODE", "z");
    FmUnmanaged(cli, manifest);
    WideText(plan, original);
    FinishedAlready(WIDE_EXPORT);
    FmRenderedIs(plan, original);
    FmTextReads(plan, original);
    ChunksParse(original);
    AppendedParse(plan);
    NoneStaysNone(Parsed(Chunks(original)), Some(Settings(plan.managed)));
    Unreadable(Rendered(plan, original).value);
  }

  // ---------------------------------------------------------------- fm and a lone carriage return

  /** A setting, a carriage return, a managed assignment and an empty line. */
  const RETURNED: string := TOKEN_LINE + "\n" + (SEVERED_LINE + "\r" + (MODE_LINE + "\n" + "\n"))

  lemma PieceByReturn(p: string, rest: string)
    requires Clean(p) && rest != "" && rest[0] != '\n'
    ensures SplitKeep(p + "\r" + rest) == [p + "\r"] + SplitKeep(rest)
    ensures SplitLines(p + "\r" + rest) == [p] + SplitLines(rest)
  {
    var s := p + "\r" + rest;
    assert s[|p|] == '\r' && s[|p| + 1] == rest[0];
    forall k | 0 <= k < |p| ensures s[k] == p[k] {}
    ReturnBreaks();
    BreakIs(s, |p|);
    Splitting(s);
    assert s[..|p|] == p && s[..|p| + 1] == p + "\r" && s[|p| + 1..] == rest;
    hide BreakAt, AfterBreak, LineBreak;
  }

  lemma ReturnedPieces()
    ensures SplitKeep(RETURNED) == [TOKEN_LINE + "\n", SEVERED_LINE + "\r", MODE_LINE + "\n", "\n"]
    ensures SplitLines(RETURNED) == [TOKEN_LINE, SEVERED_LINE, MODE_LINE, ""]
  {
    CleanLines();
    Characters();
    Firsts();
    hide LineBreak, Clean, NoNul, SplitKeep, SplitLines, RustSpace;
    PieceBy(TOKEN_LINE, '\n', SEVERED_LINE + "\r" + (MODE_LINE + "\n" + "\n"));
    PieceByReturn(SEVERED_LINE, MODE_LINE + "\n" + "\n");
    PieceBy(MODE_LINE, '\n', "\n");
    BlankPiece();
    assert MODE_LINE + ['\n'] + "\n" == MODE_LINE + "\n" + "\n" && TOKEN_LINE + ['\n'] == TOKEN_LINE + "\n";
    assert RETURNED == TOKEN_LINE + ['\n'] + (SEVERED_LINE + "\r" + (MODE_LINE + "\n" + "\n"));
  }

  lemma BlankPiece()
    ensures SplitKeep("\n") == ["\n"] && SplitLines("\n") == [""]
  {
    assert Clean("");
    hide Clean, SplitKeep, SplitLines;
    LastPiece("");
    assert "" + "\n" == "\n";
  }

  lemma ReturnedParses()
    ensures ParseLine(SEVERED_LINE + "\r") == Assign("A", "b") && (SEVERED_LINE + "\r")[0] != '#'
  {
    LiteralsParse();
    Firsts();
    Characters();
    ReturnsAreRustSpace();
    hide ParseLine, RustSpace, PlainExport, ParseBody, LineBreak, Blank;
    assert SEVERED_LINE[|SEVERED_LINE| - 1] == 'b';
    RightSpaceIsIgnored(SEVERED_LINE, '\r');
    assert SEVERED_LINE + ['\r'] == SEVERED_LINE + "\r";
  }

  lemma ReturnsAreRustSpace()
    ensures RustSpace('\r') && RustSpace('\n')
  {
  }

  lemma ReturnedText(plan: Plan)
    requires Valid(plan) && !plan.mlx && "A" !in Keys(plan.managed) && "DISCORD_TOKEN" !in Keys(plan.managed)
             && "ABBEY_FM_MODE" in Keys(plan.managed)
    ensures FmText(plan, RETURNED) == TOKEN_LINE + "\n" + (SEVERED_LINE + "\r" + "\n")
            && Distinct(plan, SplitKeep(RETURNED))
  {
    hide *;
    SeveredPieceParses();
    ReturnedParses();
    ReturnedPieces();
    var a, b, c := TOKEN_LINE + "\n", SEVERED_LINE + "\r", MODE_LINE + "\n";
    PieceStays(plan, a);
    PieceStays(plan, b);
    PieceGoes(plan, c);
    BlankHasNoKey(plan);
    NoPieceYet(plan);
    NextPiece(plan, [], a, [a], "");
    NextPiece(plan, [a], b, [a, b], a);
    NextPiece(plan, [a, b], c, [a, b, c], a + b);
    NextPiece(plan, [a, b, c], "\n", [a, b, c, "\n"], a + b);
    TextOfPieces(plan, RETURNED);
    assert a + b + "\n" == a + (b + "\n");
  }

  lemma BlankHasNoKey(plan: Plan)
    requires Valid(plan)
    ensures ManagedKey(plan, "\n").None? && ManagedKey(plan, "").None? && !Dropped(plan, "\n")
  {
    hide Strip, Bare, AssignedKey, Valid, Keys;
    HeaderHash(plan);
    StripNewline("");
    NothingHasNoKey();
    BareBlank();
    assert "" + "\n" == "\n";
    SameStrip(plan, "\n", "");
  }

  lemma BareBlank()
    ensures Bare("\n") == ""
  {
  }

  lemma NothingHasNoKey()
    ensures AssignedKey("") == None
  {
    assert Strip("", PySpace) == "";
    hide Strip;
  }

  lemma {:induction false} SubsequenceHolds(x: string, a: seq<string>, b: seq<string>)
    requires Subsequence(a, b) && x in a
    ensures x in b
    decreases |b|
  {
    if !Subsequence(a, b[..|b| - 1]) && a[|a| - 1] != x {
      assert a == a[..|a| - 1] + [a[|a| - 1]];
      SubsequenceHolds(x, a[..|a| - 1], b[..|b| - 1]);
    } else if Subsequence(a, b[..|b| - 1]) {
      SubsequenceHolds(x, a, b[..|b| - 1]);
    }
  }

  lemma Missing(x: string, a: seq<string>, b: seq<string>)
    requires x in a && x !in b
    ensures !Subsequence(a, b)
  {
    if Subsequence(a, b) { SubsequenceHolds(x, a, b); }
  }

  /** fm: with the managed assignment behind a carriage return goes the empty line behind it. */
  lemma FmCanLoseAnEmptyLine(cli: string, manifest: string)
    requires Quotable(cli) && Quotable(manifest)
    ensures var plan := FmPlan(cli, manifest); var rendered := Rendered(plan, RETURNED);
            && rendered.Some? && "" in Unmanaged(plan, SplitLines(RETURNED)) && "" !in SplitLines(rendered.value)
            && !Subsequence(Unmanaged(plan, SplitLines(RETURNED)), SplitLines(rendered.value))
  {
    hide *;
    var plan := FmPlan(cli, manifest);
    FmPlanIsValid(cli, manifest);
    PlanKinds("", cli, manifest);
    FmUnmanaged(cli, manifest);
    ReturnedText(plan);
    FmRenderedIs(plan, RETURNED);
    ReturnedPieces();
    EmptyIsUnmanaged(plan, [TOKEN_LINE, SEVERED_LINE, MODE_LINE]);
    assert [TOKEN_LINE, SEVERED_LINE, MODE_LINE] + [""] == [TOKEN_LINE, SEVERED_LINE, MODE_LINE, ""];
    ReturnedLines(plan);
    var a, b := Unmanaged(plan, SplitLines(RETURNED)), SplitLines(Rendered(plan, RETURNED).value);
    Missing("", a, b);
  }

  lemma EmptyIsUnmanaged(plan: Plan, before: seq<string>)
    requires Valid(plan)
    ensures "" in Unmanaged(plan, before + [""])
  {
    hide ManagedKey, Valid, Dropped;
    HeaderHash(plan);
    BlankHasNoKey(plan);
    assert (before + [""])[..|before|] == before;
  }

  lemma ReturnedLines(plan: Plan)
    requires Valid(plan)
    ensures var text := TOKEN_LINE + "\n" + (SEVERED_LINE + "\r" + "\n");
            "" !in SplitLines(Finished(text) + Unlines([plan.header] + Pairs(plan.managed)))
  {
    hide Valid, Pairs, Unlines, SplitLines, Clean;
    CleanLines();
    Firsts();
    TailIsClean(plan);
    TailIsNotEmpty(plan);
    var tail := Unlines([plan.header] + Pairs(plan.managed));
    LineInFront(TOKEN_LINE, TOKEN_LINE + ['\n'], SEVERED_LINE + "\r\n" + tail);
    LineInFront(SEVERED_LINE, SEVERED_LINE + "\r\n", tail);
    SplitLinesUnlines([plan.header] + Pairs(plan.managed));
    var text := TOKEN_LINE + "\n" + (SEVERED_LINE + "\r" + "\n");
    assert Finished(text) == text;
    assert text + tail == TOKEN_LINE + ['\n'] + (SEVERED_LINE + "\r\n" + tail);
  }

  lemma TailIsNotEmpty(plan: Plan)
    requires Valid(plan)
    ensures "" !in [plan.header] + Pairs(plan.managed)
  {
    HeaderHash(plan);
  }

  // ---------------------------------------------------------------- fm and two wrong lines

  const CLI_LINE := "ABBEY_FM_CLI=q"
  const TOKEN_ROW: string := TOKEN_LINE + "\n"
  const LAST_ROW: string := LAST_LINE + "\n"
  const COMMENT := "#x" + [FORM_FEED]

  /** A comment that hides a managed assignment, so that its newline goes and it swallows the next line. */
  const HIDING: string := COMMENT + (MODE_LINE + "\n")
  /** A managed assignment that hides an unmanaged one, which comes to light when it goes. */
  const SHOWING: string := CLI_LINE + [FORM_FEED] + LAST_ROW
  const CANCELLING: string := TOKEN_ROW + (HIDING + (LAST_ROW + SHOWING))

  lemma CliLine()
    ensures IsKey("ABBEY_FM_CLI") && CLI_LINE == Assignment("ABBEY_FM_CLI", "q") && Clean(CLI_LINE) && !RustSpace('q')
    ensures CLI_LINE[0] == 'A' && CLI_LINE[|CLI_LINE| - 1] == 'q' && Clean("#x")
  {
  }

  lemma Rows()
    ensures TOKEN_ROW == TOKEN_LINE + "\n" && LAST_ROW == LAST_LINE + "\n" && LAST_ROW != ""
  {
  }

  lemma PlainRight(l: string, c: char)
    requires l != "" && !RustSpace(l[0]) && !RustSpace(l[|l| - 1]) && RustSpace(c)
    ensures PlainExport(l + [c]) == PlainExport(l)
  {
    var t := l + [c];
    assert t[..|l|] == l && TrimLeft(t, RustSpace) == t;
    NothingToStrip(l, RustSpace);
    assert Strip(t, RustSpace) == l;
    hide Strip, RustSpace, AfterExport, Exported;
  }

  lemma CliPieceParses()
    ensures var p := CLI_LINE + [FORM_FEED]; ParseLine(p) == Assign("ABBEY_FM_CLI", "q") && PlainExport(p)
  {
    CliLine();
    Characters();
    hide RustSpace, ParseLine, IsKey, Assignment, PlainExport, ParseBody, Clean, LineBreak, Blank;
    PlainValue("ABBEY_FM_CLI", "q");
    RightSpaceIsIgnored(CLI_LINE, FORM_FEED);
    PlainRight(CLI_LINE, FORM_FEED);
  }

  lemma ShowingParses()
    ensures ParseLine(SHOWING) == Assign("ABBEY_FM_CLI", "q" + [FORM_FEED] + LAST_LINE)
  {
    CliLine();
    LastLine();
    hide RustSpace, ParseLine, IsKey, PlainExport, ParseBody, Clean, NoNul;
    var value := "q" + [FORM_FEED] + LAST_LINE;
    PlainValue("ABBEY_FM_CLI", value);
    NewlineIsIgnored(Assignment("ABBEY_FM_CLI", value));
    assert Assignment("ABBEY_FM_CLI", value) + "\n" == SHOWING;
  }

  lemma RowsAreEnded()
    ensures Ended(TOKEN_ROW) && Ended(HIDING) && Ended(LAST_ROW) && Ended(SHOWING) && Ended(COMMENT + LAST_ROW)
    ensures HIDING != "" && HIDING[0] == '#' && (COMMENT + LAST_ROW)[0] == '#'
  {
    CleanLines();
    LastLine();
    CliLine();
    Characters();
    hide Clean, NoNul, LineBreak, RustSpace, IsKey, Assignment;
    CleanHasNoNewline(TOKEN_LINE);
    CleanHasNoNewline(MODE_LINE);
    CleanHasNoNewline(LAST_LINE);
    CleanHasNoNewline(CLI_LINE);
    RowIsEnded(TOKEN_LINE);
    RowIsEnded(LAST_LINE);
    RowIsEnded(COMMENT + MODE_LINE);
    RowIsEnded(COMMENT + LAST_LINE);
    RowIsEnded(CLI_LINE + [FORM_FEED] + LAST_LINE);
    assert HIDING == COMMENT + MODE_LINE + "\n" && COMMENT + LAST_ROW == COMMENT + LAST_LINE + "\n";
    assert SHOWING == CLI_LINE + [FORM_FEED] + LAST_LINE + "\n";
  }

  lemma RowIsEnded(l: string)
    requires '\n' !in l
    ensures Ended(l + "\n")
  {
    assert (l + "\n")[..|l|] == l;
  }

  lemma RowInFront(a: string, b: string)
    requires Ended(a)
    ensures Chunks(a + b) == [a] + Chunks(b)
  {
    hide *;
    EndsAsLine(a);
    EndedAlone(a);
    ChunksAppend(a, b);
    ChunkAlone(a);
  }

  lemma CancellingChunks()
    ensures Chunks(CANCELLING) == [TOKEN_ROW, HIDING, LAST_ROW, SHOWING]
  {
    hide Chunks, Ended;
    RowsAreEnded();
    RowInFront(TOKEN_ROW, HIDING + (LAST_ROW + SHOWING));
    RowInFront(HIDING, LAST_ROW + SHOWING);
    RowInFront(LAST_ROW, SHOWING);
    EndedAlone(SHOWING);
    ChunkAlone(SHOWING);
  }

  lemma CancellingPieces()
    ensures SplitKeep(CANCELLING) == [TOKEN_ROW, COMMENT, MODE_LINE + "\n", LAST_ROW, CLI_LINE + [FORM_FEED], LAST_ROW]
  {
    CleanLines();
    Characters();
    LastLine();
    CliLine();
    hide LineBreak, Clean, NoNul, SplitKeep, SplitLines, Assignment, RustSpace, IsKey;
    PieceBy(TOKEN_LINE, '\n', HIDING + (LAST_ROW + SHOWING));
    PieceBy("#x", FORM_FEED, MODE_LINE + "\n" + (LAST_ROW + SHOWING));
    PieceBy(MODE_LINE, '\n', LAST_ROW + SHOWING);
    PieceBy(LAST_LINE, '\n', SHOWING);
    PieceBy(CLI_LINE, FORM_FEED, LAST_ROW);
    LastPiece(LAST_LINE);
    assert TOKEN_LINE + ['\n'] == TOKEN_ROW && MODE_LINE + ['\n'] == MODE_LINE + "\n" && LAST_LINE + ['\n'] == LAST_ROW;
    assert HIDING + (LAST_ROW + SHOWING) == COMMENT + (MODE_LINE + "\n" + (LAST_ROW + SHOWING));
  }

  /** fm keeps a comment that a break other than a newline ends. */
  lemma CommentStays(plan: Plan)
    requires Valid(plan)
    ensures !Dropped(plan, COMMENT) && ManagedKey(plan, COMMENT).None?
  {
    hide ParseLine, AssignedKey, Valid, Keys, PlainExport;
    CommentLine(COMMENT);
    HeaderIsClean(plan);
    Characters();
    assert COMMENT[2] == FORM_FEED;
    assert Bare(COMMENT) == COMMENT;
    assert !Clean(COMMENT);
  }

  lemma CancellingText(plan: Plan)
    requires Valid(plan) && !plan.mlx && "DISCORD_TOKEN" !in Keys(plan.managed) && "C" !in Keys(plan.managed)
    requires "ABBEY_FM_MODE" in Keys(plan.managed) && "ABBEY_FM_CLI" in Keys(plan.managed)
    ensures FmText(plan, CANCELLING) == TOKEN_ROW + (COMMENT + LAST_ROW + LAST_ROW)
            && Distinct(plan, SplitKeep(CANCELLING))
  {
    hide *;
    Rows();
    SeveredPieceParses();
    LastLineParses();
    CliPieceParses();
    CancellingPieces();
    var a, b, c, d, e := TOKEN_ROW, COMMENT, MODE_LINE + "\n", LAST_ROW, CLI_LINE + [FORM_FEED];
    PieceStays(plan, a);
    CommentStays(plan);
    PieceGoes(plan, c);
    PieceStays(plan, d);
    PieceGoes(plan, e);
    NoPieceYet(plan);
    NextPiece(plan, [], a, [a], "");
    NextPiece(plan, [a], b, [a, b], a);
    NextPiece(plan, [a, b], c, [a, b, c], a + b);
    NextPiece(plan, [a, b, c], d, [a, b, c, d], a + b);
    NextPiece(plan, [a, b, c, d], e, [a, b, c, d, e], a + b + d);
    NextPiece(plan, [a, b, c, d, e], d, [a, b, c, d, e, d], a + b + d);
    TextOfPieces(plan, CANCELLING);
    assert a + b + d + d == a + (b + d + d);
  }

  lemma CancellingReads()
    ensures Parsed(Chunks(CANCELLING)) ==
              Some(map["DISCORD_TOKEN" := "x", "C" := "d", "ABBEY_FM_CLI" := "q" + [FORM_FEED] + LAST_LINE])
  {
    hide *;
    Rows();
    SeveredPieceParses();
    LastLineParses();
    ShowingParses();
    RowsAreEnded();
    CancellingChunks();
    CommentLine(HIDING);
    RowsParse(TOKEN_ROW, HIDING, LAST_ROW);
    OneRowMore([TOKEN_ROW, HIDING, LAST_ROW], SHOWING, "ABBEY_FM_CLI", "q" + [FORM_FEED] + LAST_LINE);
    assert [TOKEN_ROW, HIDING, LAST_ROW] + [SHOWING] == [TOKEN_ROW, HIDING, LAST_ROW, SHOWING];
  }

  /** What is kept reads as the original does outside the managed keys. */
  lemma KeptReads()
    ensures Parsed(Chunks(Finished(TOKEN_ROW + (COMMENT + LAST_ROW + LAST_ROW)))) ==
              Some(map["DISCORD_TOKEN" := "x", "C" := "d"])
  {
    hide *;
    Rows();
    SeveredPieceParses();
    LastLineParses();
    RowsAreEnded();
    KeptRows();
    CommentLine(COMMENT + LAST_ROW);
    RowsParse(TOKEN_ROW, COMMENT + LAST_ROW, LAST_ROW);
  }

  lemma RowsParse(a: string, b: string, c: string)
    requires ParseLine(a) == Assign("DISCORD_TOKEN", "x") && ParseLine(b) == Skip && ParseLine(c) == Assign("C", "d")
    ensures Parsed([a, b, c]) == Some(map["DISCORD_TOKEN" := "x", "C" := "d"])
  {
    hide ParseLine;
    ParsedAdd([], a);
    ParsedAdd([a], b);
    ParsedAdd([a, b], c);
    assert [] + [a] == [a] && [a] + [b] == [a, b] && [a, b] + [c] == [a, b, c];
  }

  lemma OneRowMore(before: seq<string>, l: string, key: string, value: string)
    requires Parsed(before).Some? && ParseLine(l) == Assign(key, value) && key !in Parsed(before).value
    ensures Parsed(before + [l]) == Some(Parsed(before).value[key := value])
  {
    hide ParseLine, Parsed;
    ParsedAdd(before, l);
  }

  lemma KeptRows()
    ensures Chunks(Finished(TOKEN_ROW + (COMMENT + LAST_ROW + LAST_ROW))) == [TOKEN_ROW, COMMENT + LAST_ROW, LAST_ROW]
  {
    hide Chunks, Ended;
    RowsAreEnded();
    RowInFront(TOKEN_ROW, COMMENT + LAST_ROW + LAST_ROW);
    RowInFront(COMMENT + LAST_ROW, LAST_ROW);
    EndedAlone(LAST_ROW);
    ChunkAlone(LAST_ROW);
    var text := TOKEN_ROW + (COMMENT + LAST_ROW + LAST_ROW);
    assert text[|text| - 1] == LAST_ROW[|LAST_ROW| - 1] == '\n';
  }

  /** The last line gains an unmanaged assignment. */
  lemma ShowingDisagrees(plan: Plan)
    requires Valid(plan) && !plan.mlx && "C" !in Keys(plan.managed) && "ABBEY_FM_CLI" in Keys(plan.managed)
    ensures !Yields(plan, SHOWING, Block(plan, SHOWING))
  {
    hide *;
    Rows();
    LastLineParses();
    CliPieceParses();
    ShowingParses();
    ShowingPieces();
    var e, d := CLI_LINE + [FORM_FEED], LAST_ROW;
    PieceStays(plan, d);
    PieceGoes(plan, e);
    NoPieceYet(plan);
    NextPiece(plan, [], e, [e], "");
    NextPiece(plan, [e], d, [e, d], "");
    TextOfPieces(plan, SHOWING);
    assert "" + d == d && d != "";
    ShowingBlock(plan);
  }

  lemma ShowingPieces()
    ensures SplitKeep(SHOWING) == [CLI_LINE + [FORM_FEED], LAST_ROW]
  {
    Characters();
    LastLine();
    CliLine();
    hide LineBreak, Clean, NoNul, SplitKeep, SplitLines, Assignment, RustSpace, IsKey;
    PieceBy(CLI_LINE, FORM_FEED, LAST_ROW);
    LastPiece(LAST_LINE);
  }

  lemma ShowingBlock(plan: Plan)
    requires !plan.mlx && FmText(plan, SHOWING) == LAST_ROW && ParseLine(LAST_ROW) == Assign("C", "d")
    requires ParseLine(SHOWING).Assign? && ParseLine(SHOWING).key in Keys(plan.managed)
    ensures !Yields(plan, SHOWING, Block(plan, SHOWING))
  {
    hide ParseLine, FmText, Keys;
    assert Block(plan, SHOWING) == [LAST_ROW];
    ParsedAdd([], LAST_ROW);
    assert [] + [LAST_ROW] == [LAST_ROW];
    assert "C" in Parsed([LAST_ROW]).value;
  }

  /**
   fm: a line that loses an assignment and a line that gains it cancel out, so that the file
   agrees although its lines do not. Where lines join, no condition on single lines is exact.
   */
  lemma TwoWrongLinesCancel(cli: string, manifest: string)
    requires Quotable(cli) && Quotable(manifest)
    ensures var plan := FmPlan(cli, manifest); var parsed := Parsed(Split(CANCELLING));
            && parsed.Some? && Rendered(plan, CANCELLING).Some? && !EachLineAgrees(plan, CANCELLING)
            && Parsed(Split(Rendered(plan, CANCELLING).value)) == Some(parsed.value + Settings(plan.managed))
  {
    hide *;
    var plan := FmPlan(cli, manifest);
    FmPlanIsValid(cli, manifest);
    PlanKinds("", cli, manifest);
    FmUnmanaged(cli, manifest);
    FmManages(cli, manifest);
    CancellingText(plan);
    FmRenderedIs(plan, CANCELLING);
    CancellingReads();
    KeptReads();
    ChunksParse(CANCELLING);
    FmKeptTextDecides(plan, CANCELLING, Parsed(Split(CANCELLING)).value);
    OutsideManaged(plan);
    CancellingChunks();
    ShowingDisagrees(plan);
    LastDisagrees(plan, CANCELLING, 3);
  }

  lemma FmManages(cli: string, manifest: string)
    ensures "ABBEY_FM_CLI" in Keys(FmPlan(cli, manifest).managed)
  {
    assert FmPlan(cli, manifest).managed[2].0 == "ABBEY_FM_CLI";
  }

  lemma OutsideManaged(plan: Plan)
    requires "DISCORD_TOKEN" !in Keys(plan.managed) && "C" !in Keys(plan.managed)
             && "ABBEY_FM_CLI" in Keys(plan.managed)
    ensures map["DISCORD_TOKEN" := "x", "C" := "d", "ABBEY_FM_CLI" := "q" + [FORM_FEED] + LAST_LINE]
            - Keys(plan.managed)
            == map["DISCORD_TOKEN" := "x", "C" := "d"]
  {
    hide Keys;
  }

  lemma LastDisagrees(plan: Plan, original: string, i: nat)
    requires !plan.mlx && i < |Chunks(original)| && !Yields(plan, Chunks(original)[i], Block(plan, Chunks(original)[i]))
    ensures !EachLineAgrees(plan, original)
  {
    hide Yields, Block, Chunks;
    assert Left(plan, Chunks(original))[i] == Block(plan, Chunks(original)[i]);
  }
}
