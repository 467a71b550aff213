/**
 Rust source as it is written, piece by piece, and what either masker leaves of it: the code as
 it stands, and blanks for every comment and literal.
 */
module SourcePieces {
  import opened Wrappers
  import opened SourceMask

  // ---------------------------------------------------------------- written pieces

  /** The inside of a block comment: words, and comments nested in it. */
  datatype Part = Words(text: string) | Nested(parts: seq<Part>)

  /** One character of a string literal, as it is or behind a backslash. */
  datatype Letter = Letter(c: char) | Escaped(c: char)

  /** A character literal; only the module-size masker knows the last two forms. */
  datatype Character = One(c: char) | Escape(c: char) | Byte(high: char, low: char) | Unicode(digits: string)

  datatype Piece =
    | Code(c: char)
    | LineComment(text: string)
    | BlockComment(parts: seq<Part>)
    | StringLiteral(letters: seq<Letter>)
    | RawString(hashes: nat, body: string)
    | CharLiteral(character: Character)

  function PartText(part: Part): string
    decreases part
  {
    match part
    case Words(text) => text
    case Nested(parts) => "/*" + PartsText(parts) + "*/"
  }

  function PartsText(parts: seq<Part>): string
    decreases parts
  {
    if parts == [] then "" else PartText(parts[0]) + PartsText(parts[1..])
  }

  function LetterText(l: Letter): string {
    if l.Letter? then [l.c] else [BACKSLASH, l.c]
  }

  function LettersText(letters: seq<Letter>): string {
    if letters == [] then "" else LetterText(letters[0]) + LettersText(letters[1..])
  }

  function Pounds(n: nat): (t: string)
    ensures |t| == n && forall k :: 0 <= k < n ==> t[k] == '#'
  {
    seq(n, _ => '#')
  }

  function RawOpening(hashes: nat): string {
    "r" + Pounds(hashes) + [QUOTE]
  }

  function CharacterText(c: Character): string {
    match c
    case One(x) => [TICK, x, TICK]
    case Escape(x) => [TICK, BACKSLASH, x, TICK]
    case Byte(high, low) => [TICK, BACKSLASH, 'x', high, low, TICK]
    case Unicode(digits) => [TICK, BACKSLASH, 'u', '{'] + digits + ['}', TICK]
  }

  function PieceText(p: Piece): string {
    match p
    case Code(c) => [c]
    case LineComment(text) => "//" + text
    case BlockComment(parts) => "/*" + PartsText(parts) + "*/"
    case StringLiteral(letters) => [QUOTE] + LettersText(letters) + [QUOTE]
    case RawString(hashes, body) => RawOpening(hashes) + body + [QUOTE] + Pounds(hashes)
    case CharLiteral(c) => CharacterText(c)
  }

  function SourceText(ps: seq<Piece>): string {
    if ps == [] then "" else PieceText(ps[0]) + SourceText(ps[1..])
  }

  // ---------------------------------------------------------------- well-formed pieces

  predicate NoMarks(text: string) {
    forall k :: 0 <= k < |text| - 1 ==>
      !(text[k] == '/' && text[k + 1] == '*') && !(text[k] == '*' && text[k + 1] == '/')
  }

  /** Words run up to the next nested comment or to the end, and neither makes a mark with what follows. */
  predicate PartsOk(parts: seq<Part>)
    decreases parts
  {
    parts != [] ==>
      && PartOk(parts[0]) && PartsOk(parts[1..])
      && (parts[0].Words? ==>
            && (|parts| > 1 ==> parts[1].Nested?)
            && Last(parts[0].text) != Some(if |parts| > 1 then '*' else '/'))
  }

  predicate PartOk(part: Part)
    decreases part
  {
    match part
    case Words(text) => NoMarks(text)
    case Nested(parts) => PartsOk(parts)
  }

  function Last(s: string): Option<char> {
    if s == "" then None else Some(s[|s| - 1])
  }

  predicate LettersOk(letters: seq<Letter>) {
    forall k :: 0 <= k < |letters| && letters[k].Letter? ==> letters[k].c != QUOTE && letters[k].c != BACKSLASH
  }

  /** No quote followed by as many hashes as close the literal. */
  predicate BodyOk(hashes: nat, body: string) {
    forall k :: 0 <= k < |body| && body[k] == QUOTE ==> !AllPounds(body, k + 1, hashes)
  }

  predicate AllPounds(s: string, i: nat, n: nat) {
    i + n <= |s| && forall k :: i <= k < i + n ==> s[k] == '#'
  }

  predicate CharacterOk(rule: Rule, c: Character) {
    match c
    case One(x) => x != TICK && x != BACKSLASH && x != '\n'
    case Escape(x) => x != '\n'
    case Byte(high, low) => rule.ModuleSize? && AnyHexDigit(high) && AnyHexDigit(low)
    case Unicode(digits) =>
      rule.ModuleSize? && digits != "" && forall k :: 0 <= k < |digits| ==> AnyHexDigit(digits[k]) || digits[k] == '_'
  }

  /** Text that begins with the opening of a comment or a literal. */
  ghost predicate Opens(rule: Rule, t: string) {
    || Begins(t, "//") || Begins(t, "/*") || Begins(t, [QUOTE])
    || (exists n: nat :: Begins(t, RawOpening(n)))
    || (exists c: Character :: CharacterOk(rule, c) && Begins(t, CharacterText(c)))
  }

  predicate Begins(t: string, opening: string) {
    opening <= t
  }

  ghost predicate PieceOk(rule: Rule, p: Piece, after: string) {
    match p
    case Code(c) => !Opens(rule, [c] + after)
    case LineComment(text) => '\n' !in text && (after == "" || after[0] == '\n')
    case BlockComment(parts) => PartsOk(parts)
    case StringLiteral(letters) => LettersOk(letters)
    case RawString(hashes, body) => BodyOk(hashes, body)
    case CharLiteral(c) => CharacterOk(rule, c)
  }

  /** Each piece is well formed where it stands, with more text after the last. */
  ghost predicate SourceOk(rule: Rule, ps: seq<Piece>, after: string) {
    ps != [] ==> PieceOk(rule, ps[0], SourceText(ps[1..]) + after) && SourceOk(rule, ps[1..], after)
  }

  /** A literal or comment that the text ends in. */
  datatype Unclosed =
    | InString(letters: seq<Letter>, backslash: bool)
    | InRawString(hashes: nat, body: string)
    | InComment(text: string)

  function UnclosedText(u: Unclosed): string {
    match u
    case InString(letters, backslash) => [QUOTE] + (LettersText(letters) + if backslash then [BACKSLASH] else "")
    case InRawString(hashes, body) => RawOpening(hashes) + body
    case InComment(text) => "/*" + text
  }

  predicate UnclosedOk(u: Unclosed) {
    match u
    case InString(letters, _) => LettersOk(letters)
    case InRawString(hashes, body) => BodyOk(hashes, body)
    case InComment(text) => forall k :: 0 <= k < |text| - 1 ==> !(text[k] == '*' && text[k + 1] == '/')
  }

  // ---------------------------------------------------------------- what is left

  function Blanks(text: string): (t: string)
    ensures |t| == |text|
  {
    seq(|text|, k requires 0 <= k < |text| => if text[k] == '\n' then '\n' else ' ')
  }

  /** What is left of one piece: code as it stands, and blanks for everything else. */
  function Left(p: Piece): string {
    if p.Code? then PieceText(p) else Blanks(PieceText(p))
  }

  function CodeOnly(ps: seq<Piece>): string {
    if ps == [] then "" else Left(ps[0]) + CodeOnly(ps[1..])
  }

  // ---------------------------------------------------------------- where constructs end

  /** The text from a position on. */
  ghost predicate From(s: string, i: nat, t: string) {
    i <= |s| && s[i..] == t
  }

  lemma Later(s: string, i: nat, a: string, b: string)
    requires From(s, i, a + b)
    ensures From(s, i + |a|, b) && forall k :: 0 <= k < |a| ==> s[i + k] == a[k]
  {
    assert forall k :: 0 <= k < |a + b| ==> s[i..][k] == s[i + k];
    assert s[i + |a|..] == (a + b)[|a|..] == b;
  }

  lemma Character0(s: string, i: nat, t: string, k: nat)
    requires From(s, i, t)
    ensures (i + k < |s| <==> k < |t|) && (k < |t| ==> s[i + k] == t[k])
  {
    if k < |t| { assert s[i + k] == s[i..][k]; }
  }

  lemma {:induction false} LineEnds(s: string, i: nat, text: string, after: string)
    requires From(s, i, text + after) && '\n' !in text && (after == "" || after[0] == '\n')
    ensures LineEnd(s, i) == i + |text|
    decreases |text|
  {
    Character0(s, i, text + after, 0);
    if text != "" {
      assert text + after == [text[0]] + (text[1..] + after);
      Later(s, i, [text[0]], text[1..] + after);
      LineEnds(s, i + 1, text[1..], after);
    }
  }

  lemma {:induction false} StringEnds(s: string, i: nat, letters: seq<Letter>, after: string)
    requires From(s, i, LettersText(letters) + ([QUOTE] + after)) && LettersOk(letters)
    ensures QuoteEnd(s, i, QUOTE) == i + |LettersText(letters)| + 1
    decreases |letters|
  {
    var t := LettersText(letters) + ([QUOTE] + after);
    Character0(s, i, t, 0);
    if letters != [] {
      var a, b := LetterText(letters[0]), LettersText(letters[1..]) + ([QUOTE] + after);
      assert t == a + b;
      Later(s, i, a, b);
      StringEnds(s, i + |a|, letters[1..], after);
    }
  }

  lemma {:induction false} CountPounds(s: string, i: nat, n: nat, after: string)
    requires From(s, i, Pounds(n) + after)
    ensures Hashes(s, i) == n + Hashes(s, i + n)
    decreases n
  {
    Character0(s, i, Pounds(n) + after, 0);
    if n > 0 {
      assert Pounds(n) + after == "#" + (Pounds(n - 1) + after);
      Later(s, i, "#", Pounds(n - 1) + after);
      CountPounds(s, i + 1, n - 1, after);
    }
  }

  /** Where `n` hashes are counted there are hashes. */
  lemma {:induction false} HashesAre(s: string, i: nat, k: nat)
    requires k < Hashes(s, i)
    ensures At(s, i + k, '#')
    decreases k
  {
    if k > 0 { HashesAre(s, i + 1, k - 1); }
  }

  lemma {:induction false} RawEnds(s: string, i: nat, n: nat, body: string, after: string)
    requires From(s, i, body + ([QUOTE] + Pounds(n) + after)) && BodyOk(n, body)
    ensures RawEnd(s, i, n) == i + |body| + 1 + n
    decreases |body|
  {
    var t := body + ([QUOTE] + Pounds(n) + after);
    Character0(s, i, t, 0);
    if body == "" {
      assert t == [QUOTE] + (Pounds(n) + after);
      Later(s, i, [QUOTE], Pounds(n) + after);
      CountPounds(s, i + 1, n, after);
      Later(s, i + 1, Pounds(n), after);
    } else {
      assert t == [body[0]] + (body[1..] + ([QUOTE] + Pounds(n) + after));
      Later(s, i, [body[0]], body[1..] + ([QUOTE] + Pounds(n) + after));
      if body[0] == QUOTE && Hashes(s, i + 1) >= n { NoEarlyEnd(s, i, n, body, after); }
      ShorterBody(n, body);
      RawEnds(s, i + 1, n, body[1..], after);
    }
  }

  lemma ShorterBody(n: nat, body: string)
    requires body != "" && BodyOk(n, body)
    ensures BodyOk(n, body[1..])
  {
    var rest := body[1..];
    forall k | 0 <= k < |rest| && rest[k] == QUOTE ensures !AllPounds(rest, k + 1, n) {
      assert body[k + 1] == QUOTE;
      if AllPounds(rest, k + 1, n) { PoundsShift(body, k + 1, n); }
    }
  }

  lemma PoundsShift(body: string, i: nat, n: nat)
    requires body != "" && AllPounds(body[1..], i, n)
    ensures AllPounds(body, i + 1, n)
  {
    forall k | i + 1 <= k < i + 1 + n ensures body[k] == '#' { assert body[1..][k - 1] == body[k]; }
  }

  lemma NoEarlyEnd(s: string, i: nat, n: nat, body: string, after: string)
    requires From(s, i, body + ([QUOTE] + Pounds(n) + after)) && BodyOk(n, body) && body != "" && body[0] == QUOTE
    ensures Hashes(s, i + 1) < n
  {
    if Hashes(s, i + 1) >= n { PoundsInBody(s, i, n, body, after); }
  }

  lemma PoundsInBody(s: string, i: nat, n: nat, body: string, after: string)
    requires From(s, i, body + ([QUOTE] + Pounds(n) + after)) && body != "" && Hashes(s, i + 1) >= n
    ensures AllPounds(body, 1, n)
  {
    var t := body + ([QUOTE] + Pounds(n) + after);
    assert t[|body|] == QUOTE && forall k :: 0 <= k < |body| ==> t[k] == body[k];
    forall k | 1 <= k < 1 + n ensures k < |t| && t[k] == '#' {
      HashesAre(s, i + 1, k - 1);
      Character0(s, i, t, k);
    }
  }

  lemma OpensMark(s: string, i: nat, depth: nat)
    requires i <= |s| && depth > 0 && At(s, i, '/') && At(s, i + 1, '*')
    ensures i + 2 <= |s| && BlockEnd(s, i, depth) == BlockEnd(s, i + 2, depth + 1)
  {
  }

  lemma ClosesMark(s: string, i: nat, depth: nat)
    requires i <= |s| && depth > 0 && At(s, i, '*') && At(s, i + 1, '/')
    ensures i + 2 <= |s| && BlockEnd(s, i, depth) == BlockEnd(s, i + 2, depth - 1)
  {
  }

  /** Words are passed one character at a time, if they make no mark with what follows. */
  lemma {:induction false} WordsPass(s: string, i: nat, text: string, after: string, depth: nat)
    requires From(s, i, text + after) && NoMarks(text) && depth > 0 && after != ""
    requires Last(text) == Some('/') ==> after[0] != '*'
    requires Last(text) == Some('*') ==> after[0] != '/'
    ensures i + |text| <= |s| && BlockEnd(s, i, depth) == BlockEnd(s, i + |text|, depth)
    decreases |text|
  {
    var t := text + after;
    Character0(s, i, t, 0);
    Character0(s, i, t, 1);
    if text != "" {
      assert t == [text[0]] + (text[1..] + after);
      Later(s, i, [text[0]], text[1..] + after);
      assert !(At(s, i, '/') && At(s, i + 1, '*')) && !(At(s, i, '*') && At(s, i + 1, '/'));
      WordsPass(s, i + 1, text[1..], after, depth);
    }
  }

  /** What stands inside a comment is passed, nested comments and all. */
  lemma {:induction false} PartsPass(s: string, i: nat, parts: seq<Part>, after: string, depth: nat)
    requires From(s, i, PartsText(parts) + ("*/" + after)) && PartsOk(parts) && depth > 0
    ensures i + |PartsText(parts)| <= |s| && BlockEnd(s, i, depth) == BlockEnd(s, i + |PartsText(parts)|, depth)
    decreases parts, 0
  {
    hide BlockEnd, From, NoMarks, Last;
    if parts == [] {
      Inside(s, i, PartsText(parts) + ("*/" + after));
    } else {
      var a, b := PartText(parts[0]), PartsText(parts[1..]) + ("*/" + after);
      assert PartsText(parts) + ("*/" + after) == a + b;
      Later(s, i, a, b);
      match parts[0] {
        case Words(text) => {
          NextMark(parts, after);
          WordsPass(s, i, text, b, depth);
        }
        case Nested(inner) => NestedPasses(s, i, inner, b, depth);
      }
      PartsPass(s, i + |a|, parts[1..], after, depth);
    }
  }

  lemma Inside(s: string, i: nat, t: string)
    requires From(s, i, t)
    ensures i <= |s|
  {
  }

  /** After words comes a nested comment or the end. */
  lemma NextMark(parts: seq<Part>, after: string)
    requires parts != [] && parts[0].Words? && PartsOk(parts)
    ensures var b := PartsText(parts[1..]) + ("*/" + after); var text := parts[0].text;
            && b != "" && NoMarks(text)
            && (Last(text) == Some('/') ==> b[0] != '*') && (Last(text) == Some('*') ==> b[0] != '/')
  {
  }

  lemma {:induction false} NestedPasses(s: string, i: nat, parts: seq<Part>, after: string, depth: nat)
    requires From(s, i, "/*" + PartsText(parts) + "*/" + after) && PartsOk(parts) && depth > 0
    ensures var n := |PartsText(parts)|; i + n + 4 <= |s| && BlockEnd(s, i, depth) == BlockEnd(s, i + n + 4, depth)
    decreases parts, 1
  {
    hide BlockEnd, From, PartsOk, PartsText;
    var n := |PartsText(parts)|;
    assert "/*" + PartsText(parts) + "*/" + after == "/*" + (PartsText(parts) + ("*/" + after));
    Later(s, i, "/*", PartsText(parts) + ("*/" + after));
    MarkAt(s, i, "/*", PartsText(parts) + ("*/" + after));
    OpensMark(s, i, depth);
    PartsPass(s, i + 2, parts, after, depth + 1);
    Later(s, i + 2, PartsText(parts), "*/" + after);
    MarkAt(s, i + 2 + n, "*/", after);
    ClosesMark(s, i + 2 + n, depth + 1);
  }

  lemma MarkAt(s: string, i: nat, mark: string, after: string)
    requires |mark| == 2 && From(s, i, mark + after)
    ensures i + 2 <= |s| && At(s, i, mark[0]) && At(s, i + 1, mark[1])
  {
    Character0(s, i, mark + after, 0);
    Character0(s, i, mark + after, 1);
  }

  // ---------------------------------------------------------------- where pieces end

  lemma CommentEnds(s: string, i: nat, parts: seq<Part>, after: string)
    requires From(s, i, "/*" + PartsText(parts) + "*/" + after) && PartsOk(parts)
    ensures var n := |PartsText(parts)|;
            i + n + 4 <= |s| && At(s, i, '/') && At(s, i + 1, '*') && BlockEnd(s, i + 2, 1) == i + n + 4
  {
    hide From, PartsOk, PartsText;
    var n := |PartsText(parts)|;
    assert "/*" + PartsText(parts) + "*/" + after == "/*" + (PartsText(parts) + ("*/" + after));
    Later(s, i, "/*", PartsText(parts) + ("*/" + after));
    MarkAt(s, i, "/*", PartsText(parts) + ("*/" + after));
    PartsPass(s, i + 2, parts, after, 1);
    Later(s, i + 2, PartsText(parts), "*/" + after);
    MarkAt(s, i + 2 + n, "*/", after);
    ClosesMark(s, i + 2 + n, 1);
  }

  // ---------------------------------------------------------------- pieces and constructs

  lemma HexRunIs(s: string, i: nat, digits: string, after: string)
    requires From(s, i, digits + after) && (after != "" ==> !AnyHexDigit(after[0]) && after[0] != '_')
    requires forall k :: 0 <= k < |digits| ==> AnyHexDigit(digits[k]) || digits[k] == '_'
    ensures HexRun(s, i) == |digits|
    decreases |digits|
  {
    Character0(s, i, digits + after, 0);
    if digits != "" {
      assert digits + after == [digits[0]] + (digits[1..] + after);
      Later(s, i, [digits[0]], digits[1..] + after);
      HexRunIs(s, i + 1, digits[1..], after);
    }
  }

  lemma ShortEnds(rule: Rule, s: string, i: nat, c: Character, after: string)
    requires From(s, i, CharacterText(c) + after) && CharacterOk(rule, c) && (c.One? || c.Escape?)
    ensures CharEnd(rule, s, i) == Some(i + |CharacterText(c)|)
  {
    var t := CharacterText(c) + after;
    Character0(s, i, t, 0);
    Character0(s, i, t, 1);
    Character0(s, i, t, 2);
    Character0(s, i, t, 3);
    BraceIsNoDigit();
    hide HexRun, AnyHexDigit, From;
  }

  lemma ByteEnds(rule: Rule, s: string, i: nat, c: Character, after: string)
    requires From(s, i, CharacterText(c) + after) && CharacterOk(rule, c) && c.Byte?
    ensures CharEnd(rule, s, i) == Some(i + |CharacterText(c)|)
  {
    var t := CharacterText(c) + after;
    Character0(s, i, t, 0);
    Character0(s, i, t, 1);
    Character0(s, i, t, 2);
    Character0(s, i, t, 3);
    Character0(s, i, t, 4);
    Character0(s, i, t, 5);
    hide HexRun, AnyHexDigit, From;
  }

  lemma UnicodeStands(s: string, i: nat, digits: string, after: string)
    requires From(s, i, CharacterText(Unicode(digits)) + after)
    requires forall k :: 0 <= k < |digits| ==> AnyHexDigit(digits[k]) || digits[k] == '_'
    ensures At(s, i, TICK) && At(s, i + 1, BACKSLASH) && At(s, i + 2, 'u') && At(s, i + 3, '{')
    ensures HexRun(s, i + 4) == |digits| && At(s, i + 4 + |digits|, '}') && At(s, i + 5 + |digits|, TICK)
  {
    hide HexRun, AnyHexDigit, From;
    var open, rest := [TICK, BACKSLASH, 'u', '{'], ['}', TICK] + after;
    assert CharacterText(Unicode(digits)) + after == open + (digits + rest);
    Character0(s, i, open + (digits + rest), 0);
    Character0(s, i, open + (digits + rest), 1);
    Character0(s, i, open + (digits + rest), 2);
    Character0(s, i, open + (digits + rest), 3);
    Later(s, i, open, digits + rest);
    BraceIsNoDigit();
    HexRunIs(s, i + 4, digits, rest);
    Later(s, i + 4, digits, rest);
    Character0(s, i + 4 + |digits|, rest, 0);
    Character0(s, i + 4 + |digits|, rest, 1);
  }

  lemma UnicodeEnds(rule: Rule, s: string, i: nat, digits: string, after: string)
    requires From(s, i, CharacterText(Unicode(digits)) + after) && CharacterOk(rule, Unicode(digits))
    ensures CharEnd(rule, s, i) == Some(i + |CharacterText(Unicode(digits))|)
  {
    UnicodeStands(s, i, digits, after);
    hide HexRun, AnyHexDigit, From, At, ShortChar;
  }

  lemma CharacterEnds(rule: Rule, s: string, i: nat, c: Character, after: string)
    requires From(s, i, CharacterText(c) + after) && CharacterOk(rule, c)
    ensures CharEnd(rule, s, i) == Some(i + |CharacterText(c)|) && At(s, i, TICK)
  {
    Character0(s, i, CharacterText(c) + after, 0);
    hide CharEnd, From;
    match c {
      case Unicode(digits) => UnicodeEnds(rule, s, i, digits, after);
      case Byte(_, _) => ByteEnds(rule, s, i, c, after);
      case _ => ShortEnds(rule, s, i, c, after);
    }
  }

  lemma BraceIsNoDigit()
    ensures !AnyHexDigit('}') && !AnyHexDigit(TICK)
  {
  }

  lemma RawText(n: nat, body: string, after: string)
    ensures PieceText(RawString(n, body)) + after ==
              "r" + (Pounds(n) + ([QUOTE] + (body + ([QUOTE] + Pounds(n) + after))))
    ensures |PieceText(RawString(n, body))| == 3 + 2 * n + |body|
  {
    hide Pounds;
    RawRegroup(Pounds(n), body, after);
  }

  lemma RawRegroup(p: string, body: string, after: string)
    ensures "r" + p + [QUOTE] + body + [QUOTE] + p + after == "r" + (p + ([QUOTE] + (body + ([QUOTE] + p + after))))
  {
    assert body + [QUOTE] + p + after == body + ([QUOTE] + p + after);
  }

  lemma RawOpensAt(s: string, i: nat, n: nat, rest: string)
    requires From(s, i, "r" + (Pounds(n) + ([QUOTE] + rest)))
    ensures RawOpen(s, i) == Some(n) && i + 2 + n <= |s| && From(s, i + 2 + n, rest)
  {
    hide From, Pounds, Hashes;
    Character0(s, i, "r" + (Pounds(n) + ([QUOTE] + rest)), 0);
    Later(s, i, "r", Pounds(n) + ([QUOTE] + rest));
    CountPounds(s, i + 1, n, [QUOTE] + rest);
    Later(s, i + 1, Pounds(n), [QUOTE] + rest);
    Character0(s, i + 1 + n, [QUOTE] + rest, 0);
    NoPoundAtQuote(s, i + 1 + n);
    Later(s, i + 1 + n, [QUOTE], rest);
  }

  lemma RawPieceEnds(s: string, i: nat, n: nat, body: string, after: string)
    requires From(s, i, PieceText(RawString(n, body)) + after) && BodyOk(n, body)
    ensures RawOpen(s, i) == Some(n) && i + 2 + n <= |s|
            && RawEnd(s, i + 2 + n, n) == i + |PieceText(RawString(n, body))|
  {
    hide *;
    RawText(n, body, after);
    RawOpensAt(s, i, n, body + ([QUOTE] + Pounds(n) + after));
    RawEnds(s, i + 2 + n, n, body, after);
  }

  lemma NoPoundAtQuote(s: string, i: nat)
    requires At(s, i, QUOTE)
    ensures Hashes(s, i) == 0
  {
  }

  lemma LinePieceEnds(s: string, i: nat, text: string, after: string)
    requires From(s, i, "//" + text + after) && '\n' !in text && (after == "" || after[0] == '\n')
    ensures At(s, i, '/') && At(s, i + 1, '/') && i + 2 <= |s| && LineEnd(s, i + 2) == i + 2 + |text|
  {
    hide From, LineEnd;
    assert "//" + text + after == "//" + (text + after);
    MarkAt(s, i, "//", text + after);
    Later(s, i, "//", text + after);
    LineEnds(s, i + 2, text, after);
  }

  lemma StringPieceEnds(s: string, i: nat, letters: seq<Letter>, after: string)
    requires From(s, i, [QUOTE] + LettersText(letters) + [QUOTE] + after) && LettersOk(letters)
    ensures At(s, i, QUOTE) && QuoteEnd(s, i + 1, QUOTE) == i + |LettersText(letters)| + 2
  {
    hide From, QuoteEnd, LettersOk, LettersText;
    var rest := LettersText(letters) + ([QUOTE] + after);
    assert [QUOTE] + LettersText(letters) + [QUOTE] + after == [QUOTE] + rest;
    Character0(s, i, [QUOTE] + rest, 0);
    Later(s, i, [QUOTE], rest);
    StringEnds(s, i + 1, letters, after);
  }

  /** A comment or literal is a construct and ends where it is written to end. */
  lemma PieceEnds(rule: Rule, s: string, i: nat, p: Piece, after: string)
    requires From(s, i, PieceText(p) + after) && PieceOk(rule, p, after) && !p.Code?
    ensures i < |s| && Construct(rule, s, i) == Some(i + |PieceText(p)|)
  {
    hide Construct, BlockEnd, RawEnd, QuoteEnd, LineEnd, Hashes, HexRun, CharEnd, RawOpen, BodyOk, PartsOk, LettersOk;
    var t := PieceText(p) + after;
    PieceIsThere(s, i, p, after);
    ConstructCases(rule, s, i);
    NoTickNoCharacter(rule, s, i);
    hide From;
    match p {
      case LineComment(text) => LinePieceEnds(s, i, text, after);
      case BlockComment(parts) => CommentEnds(s, i, parts, after);
      case StringLiteral(letters) => StringPieceEnds(s, i, letters, after);
      case RawString(n, body) => RawPieceEnds(s, i, n, body, after);
      case CharLiteral(c) => CharacterEnds(rule, s, i, c, after);
    }
  }

  lemma PieceIsThere(s: string, i: nat, p: Piece, after: string)
    requires From(s, i, PieceText(p) + after)
    ensures i < |s|
  {
  }

  /** What a construct begins with. */
  lemma NoTickNoCharacter(rule: Rule, s: string, i: nat)
    requires i < |s|
    ensures CharEnd(rule, s, i).Some? ==> s[i] == TICK
    ensures RawOpen(s, i).Some? ==> s[i] == 'r'
  {
    hide HexRun, Hashes;
  }

  // ---------------------------------------------------------------- code opens nothing

  lemma BeginsAt(s: string, i: nat, t: string, opening: string)
    requires From(s, i, t) && forall k :: 0 <= k < |opening| ==> At(s, i + k, opening[k])
    ensures Begins(t, opening)
  {
    forall k | 0 <= k < |opening| ensures k < |t| && t[k] == opening[k] {
      assert At(s, i + k, opening[k]);
      Character0(s, i, t, k);
    }
    if opening != "" { assert At(s, i + (|opening| - 1), opening[|opening| - 1]); }
    assert t[..|opening|] == opening;
  }

  lemma RawOpens(rule: Rule, s: string, i: nat, t: string)
    requires From(s, i, t) && RawOpen(s, i).Some?
    ensures Opens(rule, t)
  {
    hide Opens;
    var n := Hashes(s, i + 1);
    var opening := RawOpening(n);
    forall k | 0 <= k < |opening| ensures At(s, i + k, opening[k]) {
      if 0 < k <= n { HashesAre(s, i + 1, k - 1); }
    }
    BeginsAt(s, i, t, opening);
    OpensIf(rule, t, n);
  }

  lemma OpensIf(rule: Rule, t: string, n: nat)
    requires Begins(t, RawOpening(n))
    ensures Opens(rule, t)
  {
  }

  lemma CharacterOpensIf(rule: Rule, t: string, c: Character)
    requires CharacterOk(rule, c) && Begins(t, CharacterText(c))
    ensures Opens(rule, t)
  {
  }

  lemma CharacterOpens(rule: Rule, s: string, i: nat, t: string)
    requires From(s, i, t) && CharEnd(rule, s, i).Some?
    ensures Opens(rule, t)
  {
    hide Opens, AnyHexDigit, HexRun, From;
    if rule.ModuleSize? && LongChar(s, i).Some? {
      if At(s, i + 2, 'u') && At(s, i + 3, '{') {
        var n := HexRun(s, i + 4);
        var c := Unicode(s[i + 4..i + 4 + n]);
        BeginsAt(s, i, t, CharacterText(c));
        CharacterOpensIf(rule, t, c);
      } else {
        var c := Byte(s[i + 3], s[i + 4]);
        BeginsAt(s, i, t, CharacterText(c));
        CharacterOpensIf(rule, t, c);
      }
    } else {
      var c := if At(s, i + 1, BACKSLASH) then Escape(s[i + 2]) else One(s[i + 1]);
      BeginsAt(s, i, t, CharacterText(c));
      CharacterOpensIf(rule, t, c);
    }
  }

  lemma MarkOpens(rule: Rule, s: string, i: nat, t: string)
    requires From(s, i, t)
    ensures At(s, i, '/') && (At(s, i + 1, '/') || At(s, i + 1, '*')) ==> Opens(rule, t)
    ensures At(s, i, QUOTE) ==> Opens(rule, t)
  {
    if At(s, i, '/') && At(s, i + 1, '/') { BeginsAt(s, i, t, "//"); }
    if At(s, i, '/') && At(s, i + 1, '*') { BeginsAt(s, i, t, "/*"); }
    if At(s, i, QUOTE) { BeginsAt(s, i, t, [QUOTE]); }
  }

  /** Where no opening stands, no construct starts. */
  lemma CodeIsPlain(rule: Rule, s: string, i: nat, t: string)
    requires From(s, i, t) && i < |s| && !Opens(rule, t)
    ensures Construct(rule, s, i) == None
  {
    hide Opens, From, Construct, CharEnd, RawOpen, LineEnd, BlockEnd, RawEnd, QuoteEnd;
    ConstructCases(rule, s, i);
    MarkOpens(rule, s, i, t);
    if CharEnd(rule, s, i).Some? { CharacterOpens(rule, s, i, t); }
    if RawOpen(s, i).Some? { RawOpens(rule, s, i, t); }
  }

  // ---------------------------------------------------------------- the mask of written source

  lemma BlankedIs(s: string, i: nat, text: string, after: string)
    requires From(s, i, text + after)
    ensures i + |text| <= |s| && Blanked(s, i, i + |text|) == Blanks(text)
  {
    Later(s, i, text, after);
    Inside(s, i + |text|, after);
    hide From, Blanked;
    forall k | 0 <= k < |text| ensures Blanked(s, i, i + |text|)[k] == Blanks(text)[k] { assert s[i + k] == text[k]; }
  }

  lemma MaskStep(rule: Rule, s: string, i: nat, p: Piece, after: string)
    requires From(s, i, PieceText(p) + after) && PieceOk(rule, p, after)
    ensures i + |PieceText(p)| <= |s| && MaskFrom(rule, s, i) == Left(p) + MaskFrom(rule, s, i + |PieceText(p)|)
  {
    hide Construct, From, PieceOk, PieceText, Blanked, Blanks, MaskFrom;
    Later(s, i, PieceText(p), after);
    Inside(s, i + |PieceText(p)|, after);
    PieceIsThere(s, i, p, after);
    OneMasked(rule, s, i);
    if p.Code? {
      CodePiece(rule, s, i, p.c, after);
    } else {
      PieceEnds(rule, s, i, p, after);
      BlankedIs(s, i, PieceText(p), after);
    }
  }

  lemma OneMasked(rule: Rule, s: string, i: nat)
    requires i < |s|
    ensures MaskFrom(rule, s, i) ==
              match Construct(rule, s, i)
              case None => [s[i]] + MaskFrom(rule, s, i + 1)
              case Some(e) => Blanked(s, i, e) + MaskFrom(rule, s, e)
  {
    hide Construct;
  }

  lemma {:induction false} MaskedFrom(rule: Rule, s: string, i: nat, ps: seq<Piece>, after: string)
    requires From(s, i, SourceText(ps) + after) && SourceOk(rule, ps, after)
    ensures var j := i + |SourceText(ps)|;
            j <= |s| && From(s, j, after) && MaskFrom(rule, s, i) == CodeOnly(ps) + MaskFrom(rule, s, j)
    decreases |ps|
  {
    hide From, PieceOk, PieceText, Left, MaskFrom;
    if ps == [] {
      Empty(after);
      Inside(s, i, after);
      Empty(MaskFrom(rule, s, i));
    } else {
      var p, rest := ps[0], SourceText(ps[1..]) + after;
      Associate(PieceText(p), SourceText(ps[1..]), after);
      MaskStep(rule, s, i, p, rest);
      Later(s, i, PieceText(p), rest);
      var j := i + |PieceText(p)|;
      MaskedFrom(rule, s, j, ps[1..], after);
      Associate(Left(p), CodeOnly(ps[1..]), MaskFrom(rule, s, j + |SourceText(ps[1..])|));
    }
  }

  lemma Empty(t: string)
    ensures "" + t == t
  {
  }

  lemma Associate(a: string, b: string, c: string)
    ensures a + b + c == a + (b + c)
  {
  }

  lemma EndOfText(rule: Rule, s: string, i: nat)
    requires From(s, i, "")
    ensures i == |s| && MaskFrom(rule, s, i) == []
  {
  }

  lemma CodePiece(rule: Rule, s: string, i: nat, c: char, after: string)
    requires From(s, i, PieceText(Code(c)) + after) && PieceOk(rule, Code(c), after)
    ensures PieceText(Code(c)) == [c] && i < |s| && s[i] == c && Construct(rule, s, i) == None
  {
    hide Opens, Construct;
    Character0(s, i, [c] + after, 0);
    CodeIsPlain(rule, s, i, [c] + after);
  }

  /**
   Of source as it is written, either masker leaves the code where it stands and blanks every
   comment and every literal, line feeds apart.
   */
  lemma MaskIsCodeOnly(rule: Rule, ps: seq<Piece>)
    requires SourceOk(rule, ps, "")
    ensures Mask(rule, SourceText(ps)) == CodeOnly(ps)
  {
    hide MaskFrom, SourceText, SourceOk, CodeOnly;
    var s := SourceText(ps);
    assert s[0..] == s == s + "";
    MaskedFrom(rule, s, 0, ps, "");
    EndOfText(rule, s, |s|);
  }

  // ---------------------------------------------------------------- text that ends in a literal or comment

  lemma {:induction false} StringRunsOn(s: string, i: nat, letters: seq<Letter>, backslash: bool)
    requires From(s, i, LettersText(letters) + if backslash then [BACKSLASH] else "") && LettersOk(letters)
    ensures i <= |s| && QuoteEnd(s, i, QUOTE) == |s|
    decreases |letters|
  {
    var end := if backslash then [BACKSLASH] else "";
    var t := LettersText(letters) + end;
    Character0(s, i, t, 0);
    Character0(s, i, t, 1);
    if letters != [] {
      var a, b := LetterText(letters[0]), LettersText(letters[1..]) + end;
      assert t == a + b;
      Later(s, i, a, b);
      StringRunsOn(s, i + |a|, letters[1..], backslash);
    }
  }

  lemma {:induction false} RawRunsOn(s: string, i: nat, n: nat, body: string)
    requires From(s, i, body) && BodyOk(n, body)
    ensures i <= |s| && RawEnd(s, i, n) == |s|
    decreases |body|
  {
    Character0(s, i, body, 0);
    if body != "" {
      assert body == [body[0]] + body[1..];
      Later(s, i, [body[0]], body[1..]);
      if body[0] == QUOTE && Hashes(s, i + 1) >= n { PoundsAtEnd(s, i, n, body); }
      ShorterBody(n, body);
      RawRunsOn(s, i + 1, n, body[1..]);
    }
  }

  lemma PoundsAtEnd(s: string, i: nat, n: nat, body: string)
    requires From(s, i, body) && body != "" && Hashes(s, i + 1) >= n
    ensures AllPounds(body, 1, n)
  {
    forall k | 1 <= k < 1 + n ensures k < |body| && body[k] == '#' {
      HashesAre(s, i + 1, k - 1);
      Character0(s, i, body, k);
    }
    if n > 0 { assert n < |body|; }
  }

  lemma {:induction false} CommentRunsOn(s: string, i: nat, text: string, depth: nat)
    requires From(s, i, text) && depth > 0
    requires forall k :: 0 <= k < |text| - 1 ==> !(text[k] == '*' && text[k + 1] == '/')
    ensures i <= |s| && BlockEnd(s, i, depth) == |s|
    decreases |text|
  {
    Character0(s, i, text, 0);
    Character0(s, i, text, 1);
    if text != "" {
      if |text| > 1 && text[0] == '/' && text[1] == '*' {
        assert text == text[..2] + text[2..];
        Later(s, i, text[..2], text[2..]);
        CommentRunsOn(s, i + 2, text[2..], depth + 1);
      } else {
        assert text == [text[0]] + text[1..];
        Later(s, i, [text[0]], text[1..]);
        CommentRunsOn(s, i + 1, text[1..], depth);
      }
    }
  }

  /** An unclosed literal or comment is a construct that runs to the end of the text. */
  lemma UnclosedRunsOn(rule: Rule, s: string, i: nat, u: Unclosed)
    requires From(s, i, UnclosedText(u)) && UnclosedOk(u)
    ensures i < |s| && Construct(rule, s, i) == Some(|s|)
  {
    hide Construct, BlockEnd, RawEnd, QuoteEnd, Hashes, CharEnd, RawOpen, BodyOk, LettersOk, LettersText;
    Character0(s, i, UnclosedText(u), 0);
    ConstructCases(rule, s, i);
    NoTickNoCharacter(rule, s, i);
    match u {
      case InString(letters, backslash) =>
        Later(s, i, [QUOTE], LettersText(letters) + if backslash then [BACKSLASH] else "");
        StringRunsOn(s, i + 1, letters, backslash);
      case InRawString(n, body) =>
        assert RawOpening(n) + body == "r" + (Pounds(n) + ([QUOTE] + body));
        RawOpensAt(s, i, n, body);
        RawRunsOn(s, i + 2 + n, n, body);
      case InComment(text) =>
        MarkAt(s, i, "/*", text);
        Later(s, i, "/*", text);
        CommentRunsOn(s, i + 2, text, 1);
    }
  }

  /** Text that ends in an unclosed literal or comment is blanked from there on. */
  lemma MaskHidesTheUnclosed(rule: Rule, ps: seq<Piece>, u: Unclosed)
    requires SourceOk(rule, ps, UnclosedText(u)) && UnclosedOk(u)
    ensures Mask(rule, SourceText(ps) + UnclosedText(u)) == CodeOnly(ps) + Blanks(UnclosedText(u))
  {
    hide SourceText, SourceOk, CodeOnly, UnclosedText, UnclosedOk, Construct, Blanked, Blanks, From;
    var s := SourceText(ps) + UnclosedText(u);
    var i := |SourceText(ps)|;
    Whole(s);
    MaskedFrom(rule, s, 0, ps, UnclosedText(u));
    UnclosedRunsOn(rule, s, i, u);
    assert UnclosedText(u) == UnclosedText(u) + "";
    BlankedIs(s, i, UnclosedText(u), "");
    assert MaskFrom(rule, s, |s|) == [];
  }

  lemma Whole(s: string)
    ensures From(s, 0, s)
  {
    assert s[0..] == s;
  }
}
