/**
 The two Rust-source maskers: `mask_literals_and_comments` of scripts/check-privacy.py
 and `mask_non_code` of scripts/check-rust-module-size.py.

 They differ in their character literals and in the order of their tests, and are
 specified together by the construct, if any, that starts at a code position.
 */
module SourceMask {
  import opened Wrappers

  datatype Rule = Privacy | ModuleSize

  const QUOTE := '\"'
  const TICK := '\''
  const BACKSLASH := '\\'

  function Blank(c: char): char {
    if c == '\n' then '\n' else ' '
  }

  predicate At(s: string, i: nat, c: char) {
    i < |s| && s[i] == c
  }

  // ---------------------------------------------------------------- constructs

  function LineEnd(s: string, i: nat): (e: nat)
    requires i <= |s|
    ensures i <= e <= |s| && (forall k :: i <= k < e ==> s[k] != '\n') && (e < |s| ==> s[e] == '\n')
    decreases |s| - i
  {
    if i < |s| && s[i] != '\n' then LineEnd(s, i + 1) else i
  }

  /** The end of a block comment with `depth` comments open at `i`; unclosed comments run to the end. */
  function BlockEnd(s: string, i: nat, depth: nat): (e: nat)
    requires i <= |s|
    ensures i <= e <= |s|
    decreases |s| - i
  {
    if depth == 0 || i == |s| then i
    else if At(s, i, '/') && At(s, i + 1, '*') then BlockEnd(s, i + 2, depth + 1)
    else if At(s, i, '*') && At(s, i + 1, '/') then BlockEnd(s, i + 2, depth - 1)
    else BlockEnd(s, i + 1, depth)
  }

  /** The end of a literal closed by `quote`, with backslash escapes; an unclosed one runs to the end. */
  function QuoteEnd(s: string, i: nat, quote: char): (e: nat)
    requires i <= |s|
    ensures i <= e <= |s| && (i < |s| ==> i < e)
    decreases |s| - i
  {
    if i == |s| then i
    else if s[i] == BACKSLASH then (if i + 1 < |s| then QuoteEnd(s, i + 2, quote) else |s|)
    else if s[i] == quote then i + 1
    else QuoteEnd(s, i + 1, quote)
  }

  function Hashes(s: string, i: nat): (n: nat)
    ensures i <= |s| ==> i + n <= |s|
    decreases |s| - i
  {
    if At(s, i, '#') then 1 + Hashes(s, i + 1) else 0
  }

  /** The number of hashes of a raw string that starts at `i`. */
  function RawOpen(s: string, i: nat): Option<nat> {
    if At(s, i, 'r') && At(s, i + 1 + Hashes(s, i + 1), QUOTE) then Some(Hashes(s, i + 1)) else None
  }

  /** The end of the first quote followed by `hashes` hashes, or the end of the text. */
  function RawEnd(s: string, i: nat, hashes: nat): (e: nat)
    requires i <= |s|
    ensures i <= e <= |s|
    decreases |s| - i
  {
    if i == |s| then i
    else if s[i] == QUOTE && Hashes(s, i + 1) >= hashes && i + 1 + hashes <= |s| then i + 1 + hashes
    else RawEnd(s, i + 1, hashes)
  }

  predicate AnyHexDigit(c: char) {
    '0' <= c <= '9' || 'a' <= c <= 'f' || 'A' <= c <= 'F'
  }

  /** How many characters of `\u{...}` braces hold hexadecimal digits or underscores. */
  function HexRun(s: string, i: nat): (n: nat)
    ensures i <= |s| ==> i + n <= |s|
    ensures forall k :: i <= k < i + n ==> k < |s| && (AnyHexDigit(s[k]) || s[k] == '_')
    decreases |s| - i
  {
    if i < |s| && (AnyHexDigit(s[i]) || s[i] == '_') then 1 + HexRun(s, i + 1) else 0
  }

  /** A one-character literal: `'x'`, or a backslash and any character but a line feed. */
  function ShortChar(s: string, i: nat): Option<nat> {
    if !At(s, i, TICK) then None
    else if At(s, i + 1, BACKSLASH) then
      if i + 2 < |s| && s[i + 2] != '\n' && At(s, i + 3, TICK) then Some(i + 4) else None
    else if i + 1 < |s| && s[i + 1] != TICK && s[i + 1] != '\n' && At(s, i + 2, TICK) then Some(i + 3)
    else None
  }

  /** The longer escapes only the module-size masker knows: `'\u{..}'` and `'\xHH'`. */
  function LongChar(s: string, i: nat): Option<nat> {
    if !At(s, i, TICK) || !At(s, i + 1, BACKSLASH) then None
    else if At(s, i + 2, 'u') && At(s, i + 3, '{') then
      var n := HexRun(s, i + 4);
      if n > 0 && At(s, i + 4 + n, '}') && At(s, i + 5 + n, TICK) then Some(i + 6 + n) else None
    else if At(s, i + 2, 'x') && i + 4 < |s| && AnyHexDigit(s[i + 3]) && AnyHexDigit(s[i + 4])
            && At(s, i + 5, TICK) then Some(i + 6)
    else None
  }

  function CharEnd(rule: Rule, s: string, i: nat): (e: Option<nat>)
    ensures e.Some? ==> i + 3 <= e.value <= |s|
  {
    if rule.ModuleSize? && LongChar(s, i).Some? then LongChar(s, i) else ShortChar(s, i)
  }

  /** The end of the comment or literal that starts at code position `i`, if one does. */
  function Construct(rule: Rule, s: string, i: nat): (e: Option<nat>)
    requires i < |s|
    ensures e.Some? ==> i < e.value <= |s|
    ensures e.Some? ==> i + 2 <= e.value || e.value == |s|
  {
    if At(s, i, '/') && At(s, i + 1, '/') then Some(LineEnd(s, i + 2))
    else if At(s, i, '/') && At(s, i + 1, '*') then Some(BlockEnd(s, i + 2, 1))
    else if CharEnd(rule, s, i).Some? then CharEnd(rule, s, i)
    else if RawOpen(s, i).Some? then Some(RawEnd(s, i + 2 + RawOpen(s, i).value, RawOpen(s, i).value))
    else if s[i] == QUOTE then Some(QuoteEnd(s, i + 1, QUOTE))
    else None
  }

  function Blanked(s: string, i: nat, e: nat): (t: string)
    requires i <= e <= |s|
    ensures |t| == e - i && forall k :: 0 <= k < e - i ==> t[k] == Blank(s[i + k])
    decreases e - i
  {
    if i == e then [] else [Blank(s[i])] + Blanked(s, i + 1, e)
  }

  /** The masked text from code position `i` on. */
  function MaskFrom(rule: Rule, s: string, i: nat): (t: string)
    requires i <= |s|
    ensures |t| == |s| - i
    decreases |s| - i
  {
    if i == |s| then []
    else
      var e := Construct(rule, s, i);
      if e.None? then [s[i]] + MaskFrom(rule, s, i + 1) else Blanked(s, i, e.value) + MaskFrom(rule, s, e.value)
  }

  function Mask(rule: Rule, s: string): string {
    MaskFrom(rule, s, 0)
  }

  // ---------------------------------------------------------------- what masking keeps

  /** Scanning from `i` reaches `j` as plain code. */
  ghost predicate PlainAt(rule: Rule, s: string, i: nat, j: nat)
    requires i <= |s|
    decreases |s| - i
  {
    i < |s| && i <= j &&
    match Construct(rule, s, i)
    case None => j == i || PlainAt(rule, s, i + 1, j)
    case Some(e) => PlainAt(rule, s, e, j)
  }

  lemma {:induction false} MaskedCharacter(rule: Rule, s: string, i: nat, j: nat)
    requires i <= j < |s|
    ensures MaskFrom(rule, s, i)[j - i] == if PlainAt(rule, s, i, j) then s[j] else Blank(s[j])
    ensures PlainAt(rule, s, i, j) ==> Construct(rule, s, j).None?
    decreases |s| - i
  {
    hide Construct;
    var e := Construct(rule, s, i);
    if e.None? {
      if i < j { MaskedCharacter(rule, s, i + 1, j); }
    } else if j < e.value {
      NotPlainBefore(rule, s, e.value, j);
    } else {
      MaskedCharacter(rule, s, e.value, j);
    }
  }

  lemma NotPlainBefore(rule: Rule, s: string, i: nat, j: nat)
    requires j < i <= |s|
    ensures !PlainAt(rule, s, i, j)
  {
    hide Construct;
  }

  /** After plain code comes plain code or the start of a construct, and a construct hides at least two characters. */
  lemma {:induction false} AfterPlain(rule: Rule, s: string, i: nat, j: nat)
    requires i <= |s| && PlainAt(rule, s, i, j) && j + 1 < |s| && !PlainAt(rule, s, i, j + 1)
    ensures j + 2 < |s| ==> !PlainAt(rule, s, i, j + 2)
    decreases |s| - i
  {
    hide Construct;
    var e := Construct(rule, s, i);
    if e.Some? {
      AfterPlain(rule, s, e.value, j);
    } else if i == j {
      var next := Construct(rule, s, i + 1);
      if next.Some? && j + 2 < next.value { NotPlainBefore(rule, s, next.value, j + 2); }
    } else {
      AfterPlain(rule, s, i + 1, j);
    }
  }

  /** Masking keeps the length, maps every character to itself or a space, and keeps line feeds where they are. */
  lemma MaskKeepsShape(rule: Rule, s: string, j: nat)
    requires j < |s|
    ensures |Mask(rule, s)| == |s|
    ensures Mask(rule, s)[j] == s[j] || Mask(rule, s)[j] == ' '
    ensures Mask(rule, s)[j] == '\n' <==> s[j] == '\n'
  {
    MaskedCharacter(rule, s, 0, j);
  }

  /** Where the masked text is neither blank nor a line feed, the source is plain code. */
  lemma VisibleIsPlain(rule: Rule, s: string, j: nat)
    requires j < |s| && Mask(rule, s)[j] != ' ' && Mask(rule, s)[j] != '\n'
    ensures PlainAt(rule, s, 0, j) && Mask(rule, s)[j] == s[j] && Construct(rule, s, j).None?
  {
    hide Construct, PlainAt;
    MaskedCharacter(rule, s, 0, j);
  }

  /** No double quote and no comment opener survives. */
  lemma NothingOpensAfterMasking(rule: Rule, s: string, j: nat)
    requires j < |s|
    ensures Mask(rule, s)[j] != QUOTE
    ensures At(Mask(rule, s), j, '/') ==> !At(Mask(rule, s), j + 1, '/') && !At(Mask(rule, s), j + 1, '*')
  {
    var m := Mask(rule, s);
    if m[j] == QUOTE || m[j] == '/' {
      VisibleIsPlain(rule, s, j);
      hide Mask;
      PlainIsNoOpener(rule, s, j);
      if j + 1 < |s| && (m[j + 1] == '/' || m[j + 1] == '*') { VisibleIsPlain(rule, s, j + 1); }
    }
  }

  lemma PlainIsNoOpener(rule: Rule, s: string, j: nat)
    requires j < |s| && Construct(rule, s, j).None?
    ensures s[j] != QUOTE && !(s[j] == '/' && (At(s, j + 1, '/') || At(s, j + 1, '*')))
    ensures CharEnd(rule, s, j).None? && RawOpen(s, j).None?
  {
    hide CharEnd, RawOpen;
  }

  // ---------------------------------------------------------------- masking twice

  /** A visible character of the masked text is the source's own. */
  lemma Visible(rule: Rule, s: string, j: nat, c: char)
    requires At(Mask(rule, s), j, c) && c != ' ' && c != '\n'
    ensures At(s, j, c) && PlainAt(rule, s, 0, j)
  {
    VisibleIsPlain(rule, s, j);
  }

  /** One character between two pieces of plain code is plain code. */
  lemma BetweenPlain(rule: Rule, s: string, j: nat)
    requires j + 2 < |s| && PlainAt(rule, s, 0, j) && PlainAt(rule, s, 0, j + 2)
    ensures Mask(rule, s)[j + 1] == s[j + 1]
  {
    hide Construct, PlainAt, MaskFrom;
    if !PlainAt(rule, s, 0, j + 1) { AfterPlain(rule, s, 0, j); }
    MaskedCharacter(rule, s, 0, j + 1);
  }

  lemma ShortCharWasThere(rule: Rule, s: string, j: nat)
    requires ShortChar(Mask(rule, s), j).Some?
    ensures ShortChar(s, j).Some? && PlainAt(rule, s, 0, j)
  {
    hide Mask, PlainAt;
    var m := Mask(rule, s);
    Visible(rule, s, j, TICK);
    if At(m, j + 1, BACKSLASH) {
      Visible(rule, s, j + 1, BACKSLASH);
      Visible(rule, s, j + 3, TICK);
      BetweenPlain(rule, s, j + 1);
    } else {
      Visible(rule, s, j + 2, TICK);
      BetweenPlain(rule, s, j);
    }
  }

  lemma {:induction false} SameHexRun(rule: Rule, s: string, i: nat)
    requires i <= |s| && At(Mask(rule, s), i + HexRun(Mask(rule, s), i), '}')
    ensures HexRun(s, i) == HexRun(Mask(rule, s), i)
    decreases |s| - i
  {
    hide Mask, PlainAt;
    var m := Mask(rule, s);
    assert |m| == |s| by { if i < |s| { MaskKeepsShape(rule, s, i); } else { MaskLength(rule, s); } }
    if HexRun(m, i) > 0 {
      Visible(rule, s, i, m[i]);
      SameHexRun(rule, s, i + 1);
    } else {
      Visible(rule, s, i, '}');
    }
  }

  lemma MaskLength(rule: Rule, s: string)
    ensures |Mask(rule, s)| == |s|
  {
  }

  lemma LongCharWasThere(rule: Rule, s: string, j: nat)
    requires LongChar(Mask(rule, s), j).Some?
    ensures LongChar(s, j).Some? && PlainAt(rule, s, 0, j)
  {
    hide Mask, PlainAt;
    var m := Mask(rule, s);
    MaskLength(rule, s);
    Visible(rule, s, j, TICK);
    Visible(rule, s, j + 1, BACKSLASH);
    if At(m, j + 2, 'u') && At(m, j + 3, '{') {
      var n := HexRun(m, j + 4);
      Visible(rule, s, j + 2, 'u');
      Visible(rule, s, j + 3, '{');
      SameHexRun(rule, s, j + 4);
      Visible(rule, s, j + 4 + n, '}');
      Visible(rule, s, j + 5 + n, TICK);
    } else {
      Visible(rule, s, j + 2, 'x');
      Visible(rule, s, j + 3, m[j + 3]);
      Visible(rule, s, j + 4, m[j + 4]);
      Visible(rule, s, j + 5, TICK);
    }
  }

  /** Nothing in masked text starts a comment or a literal: a tick that was a lifetime stays one. */
  lemma MaskedTextHasNoConstruct(rule: Rule, s: string, j: nat)
    requires j < |s|
    ensures |Mask(rule, s)| == |s| && Construct(rule, Mask(rule, s), j).None?
  {
    hide Mask, PlainAt, ShortChar, LongChar;
    MaskLength(rule, s);
    var m := Mask(rule, s);
    NothingOpensAfterMasking(rule, s, j);
    if ShortChar(m, j).Some? {
      ShortCharWasThere(rule, s, j);
      MaskedCharacterIsPlain(rule, s, j);
    }
    if rule.ModuleSize? && LongChar(m, j).Some? {
      LongCharWasThere(rule, s, j);
      MaskedCharacterIsPlain(rule, s, j);
    }
    if RawOpen(m, j).Some? { NothingOpensAfterMasking(rule, s, j + 1 + Hashes(m, j + 1)); }
  }

  lemma MaskedCharacterIsPlain(rule: Rule, s: string, j: nat)
    requires j < |s| && PlainAt(rule, s, 0, j)
    ensures CharEnd(rule, s, j).None?
  {
    hide PlainAt, MaskFrom;
    MaskedCharacter(rule, s, 0, j);
    PlainIsNoOpener(rule, s, j);
  }

  lemma {:induction false} PlainTextIsUnchanged(rule: Rule, m: string, i: nat)
    requires i <= |m| && forall j :: 0 <= j < |m| ==> Construct(rule, m, j).None?
    ensures MaskFrom(rule, m, i) == m[i..]
    decreases |m| - i
  {
    hide Construct;
    if i < |m| { PlainTextIsUnchanged(rule, m, i + 1); }
  }

  /** Masking is idempotent, for every text, including unclosed literals and nested comments. */
  lemma MaskIsIdempotent(rule: Rule, s: string)
    ensures Mask(rule, Mask(rule, s)) == Mask(rule, s)
  {
    var m := Mask(rule, s);
    MaskLength(rule, s);
    forall j | 0 <= j < |m| ensures Construct(rule, m, j).None? { MaskedTextHasNoConstruct(rule, s, j); }
    PlainTextIsUnchanged(rule, m, 0);
  }

  // ---------------------------------------------------------------- the loops

  /** `target` agrees with the scan that resumes at code position `i`. */
  ghost predicate Resumes(rule: Rule, s: string, target: string, i: nat) {
    |target| == |s| && i <= |s| && target[i..] == MaskFrom(rule, s, i)
  }

  ghost predicate HiddenIn(s: string, target: string, from: nat, to: nat) {
    from <= to <= |s| == |target| && forall k :: from <= k < to ==> target[k] == Blank(s[k])
  }

  /** Everything before `index` is final and the rest is untouched. */
  ghost predicate Done(output: array<char>, s: string, target: string, index: nat)
    reads output
  {
    && output.Length == |s| == |target| && index <= |s|
    && (forall k :: 0 <= k < index ==> output[k] == target[k])
    && (forall k :: index <= k < |s| ==> output[k] == s[k])
  }

  lemma EnterConstruct(rule: Rule, s: string, target: string, i: nat)
    requires Resumes(rule, s, target, i) && i < |s|
    ensures match Construct(rule, s, i)
            case Some(e) => HiddenIn(s, target, i, e) && Resumes(rule, s, target, e)
            case None => target[i] == s[i] && Resumes(rule, s, target, i + 1)
  {
    hide Construct;
    var e := Construct(rule, s, i);
    if e.Some? {
      forall k | i <= k < e.value ensures target[k] == Blank(s[k]) {
        assert target[k] == target[i..][k - i] == Blanked(s, i, e.value)[k - i];
      }
      assert target[e.value..] == target[i..][e.value - i..];
    } else {
      assert target[i] == target[i..][0];
      assert target[i + 1..] == target[i..][1..];
    }
  }

  method BlankTo(output: array<char>, s: string, ghost target: string, from: nat, to: nat)
    requires Done(output, s, target, from) && HiddenIn(s, target, from, to)
    modifies output
    ensures Done(output, s, target, to)
  {
    for k := from to to
      invariant Done(output, s, target, k)
    {
      output[k] := if s[k] == '\n' then '\n' else ' ';
    }
  }

  /** The quoted-literal loop of the privacy masker, from the opening quote on. */
  method MaskQuoted(output: array<char>, s: string, ghost target: string, from: nat, quote: char) returns (index: nat)
    requires from < |s| && s[from] == quote && quote != BACKSLASH && quote != '\n'
    requires Done(output, s, target, from) && HiddenIn(s, target, from, QuoteEnd(s, from + 1, quote))
    modifies output
    ensures index == QuoteEnd(s, from + 1, quote) && Done(output, s, target, index)
  {
    ghost var e := QuoteEnd(s, from + 1, quote);
    output[from] := ' ';
    index := from + 1;
    var escaped := false;
    while index < |s|
      invariant from < index <= e && Done(output, s, target, index)
      invariant !escaped ==> QuoteEnd(s, index, quote) == e
      invariant escaped ==> e == if index < |s| then QuoteEnd(s, index + 1, quote) else |s|
    {
      var current := s[index];
      output[index] := if current == '\n' then '\n' else ' ';
      index := index + 1;
      if escaped {
        escaped := false;
      } else if current == BACKSLASH {
        escaped := true;
      } else if current == quote {
        return;
      }
    }
  }

  /** The loop over a line comment, up to its line feed. */
  method MaskLine(output: array<char>, s: string, ghost target: string, from: nat) returns (index: nat)
    requires Done(output, s, target, from) && HiddenIn(s, target, from, LineEnd(s, from))
    modifies output
    ensures index == LineEnd(s, from) && Done(output, s, target, index)
  {
    index := from;
    while index < |s| && s[index] != '\n'
      invariant from <= index <= LineEnd(s, from) && Done(output, s, target, index)
    {
      output[index] := ' ';
      index := index + 1;
    }
  }

  method OpenComment(output: array<char>, s: string, ghost target: string, index: nat) returns (next: nat)
    requires At(s, index, '/') && At(s, index + 1, '*')
    requires Done(output, s, target, index) && HiddenIn(s, target, index, BlockEnd(s, index + 2, 1))
    modifies output
    ensures next == index + 2 && Done(output, s, target, next) && HiddenIn(s, target, next, BlockEnd(s, next, 1))
  {
    output[index], output[index + 1] := ' ', ' ';
    return index + 2;
  }

  /** One turn of the main loop inside a block comment, which is to end at `resume`. */
  method MaskInComment(output: array<char>, s: string, ghost target: string, index: nat, depth: nat, ghost resume: nat)
    returns (next: nat, newDepth: nat)
    requires Done(output, s, target, index) && index < |s| && depth > 0
    requires resume == BlockEnd(s, index, depth) && HiddenIn(s, target, index, resume)
    modifies output
    ensures index < next && Done(output, s, target, next) && resume == BlockEnd(s, next, newDepth)
    ensures HiddenIn(s, target, next, resume) && (newDepth == 0 ==> next == resume)
  {
    output[index] := if s[index] == '\n' then '\n' else ' ';
    if At(s, index, '/') && At(s, index + 1, '*') {
      output[index + 1] := ' ';
      return index + 2, depth + 1;
    } else if At(s, index, '*') && At(s, index + 1, '/') {
      output[index + 1] := ' ';
      return index + 2, depth - 1;
    }
    return index + 1, depth;
  }

  /** `mask_literals_and_comments`. */
  method MaskLiteralsAndComments(source: string) returns (masked: string)
    ensures masked == Mask(Privacy, source)
  {
    hide Construct, MaskFrom, CharEnd, RawOpen, RawEnd, QuoteEnd, ShortChar, HiddenIn;
    ghost var target := Mask(Privacy, source);
    MaskLength(Privacy, source);
    var output := new char[|source|](i requires 0 <= i < |source| => source[i]);
    var index: nat, blockDepth: nat := 0, 0;
    ghost var resume := 0;
    while index < |source|
      invariant Done(output, source, target, index)
      invariant blockDepth == 0 ==> Resumes(Privacy, source, target, index)
      invariant blockDepth > 0 ==> HiddenIn(source, target, index, resume) && Resumes(Privacy, source, target, resume)
      invariant blockDepth > 0 ==> resume == BlockEnd(source, index, blockDepth)
      decreases |source| - index
    {
      if blockDepth > 0 {
        index, blockDepth := MaskInComment(output, source, target, index, blockDepth, resume);
        continue;
      }
      EnterConstruct(Privacy, source, target, index);
      ConstructCases(Privacy, source, index);
      if At(source, index, '/') && At(source, index + 1, '/') {
        assert LineEnd(source, index) == LineEnd(source, index + 2);
        index := MaskLine(output, source, target, index);
        continue;
      }
      if At(source, index, '/') && At(source, index + 1, '*') {
        resume := BlockEnd(source, index + 2, 1);
        index := OpenComment(output, source, target, index);
        blockDepth := 1;
        continue;
      }
      var raw := RawOpen(source, index);
      if raw.Some? {
        RawIsNoTick(source, index);
        var end := RawEnd(source, index + 2 + raw.value, raw.value);
        BlankTo(output, source, target, index, end);
        index := end;
        continue;
      }
      if source[index] == TICK && ShortChar(source, index).None? {
        index := index + 1;
        continue;
      }
      if source[index] == QUOTE || source[index] == TICK {
        CharIsQuoted(source, index);
        index := MaskQuoted(output, source, target, index, source[index]);
        continue;
      }
      index := index + 1;
    }
    assert output[..] == target;
    return output[..];
  }

  /** The order of the tests, as the loops rely on it. */
  lemma ConstructCases(rule: Rule, s: string, i: nat)
    requires i < |s|
    ensures Construct(rule, s, i) ==
              if At(s, i, '/') && At(s, i + 1, '/') then Some(LineEnd(s, i + 2))
              else if At(s, i, '/') && At(s, i + 1, '*') then Some(BlockEnd(s, i + 2, 1))
              else if CharEnd(rule, s, i).Some? then CharEnd(rule, s, i)
              else if RawOpen(s, i).Some? then Some(RawEnd(s, i + 2 + RawOpen(s, i).value, RawOpen(s, i).value))
              else if s[i] == QUOTE then Some(QuoteEnd(s, i + 1, QUOTE))
              else None
    ensures CharEnd(Privacy, s, i) == ShortChar(s, i) && (CharEnd(rule, s, i).Some? ==> s[i] == TICK)
    ensures i + 2 <= |s| ==> (At(s, i, '/') && At(s, i + 1, '/') ==> LineEnd(s, i) == LineEnd(s, i + 2))
  {
    hide BlockEnd, RawEnd, QuoteEnd, Hashes, HexRun;
  }

  lemma RawIsNoTick(s: string, i: nat)
    requires RawOpen(s, i).Some?
    ensures s[i] == 'r' && ShortChar(s, i).None?
  {
    hide Hashes;
  }

  /** Scanning a short character literal for its closing tick ends where the literal does. */
  lemma CharIsQuoted(s: string, i: nat)
    requires i < |s|
    ensures ShortChar(s, i).Some? ==> QuoteEnd(s, i + 1, TICK) == ShortChar(s, i).value
  {
  }

  /** The nested-comment loop of the module-size masker. */
  method SkipComment(s: string, from: nat) returns (index: nat)
    requires from <= |s|
    ensures index == BlockEnd(s, from, 1)
  {
    index := from;
    var depth: nat := 1;
    while index < |s| && depth > 0
      invariant index <= |s| && BlockEnd(s, index, depth) == BlockEnd(s, from, 1)
      decreases |s| - index
    {
      if At(s, index, '/') && At(s, index + 1, '*') {
        depth, index := depth + 1, index + 2;
      } else if At(s, index, '*') && At(s, index + 1, '/') {
        depth, index := depth - 1, index + 2;
      } else {
        index := index + 1;
      }
    }
  }

  /** Its string loop: an escape at the very end steps over the end of the text. */
  method SkipString(s: string, from: nat) returns (index: nat)
    requires from <= |s|
    ensures (if index <= |s| then index else |s|) == QuoteEnd(s, from, QUOTE)
  {
    index := from;
    while index < |s|
      invariant index <= |s| + 1
      invariant (if index <= |s| then QuoteEnd(s, index, QUOTE) else |s|) == QuoteEnd(s, from, QUOTE)
      decreases |s| + 1 - index
    {
      if s[index] == BACKSLASH {
        index := index + 2;
      } else if s[index] == QUOTE {
        return index + 1;
      } else {
        index := index + 1;
      }
    }
  }

  /** `mask_non_code`, without the path strings it also collects. */
  method MaskNonCode(text: string) returns (masked: string)
    ensures masked == Mask(ModuleSize, text)
  {
    hide Construct, MaskFrom, CharEnd, RawOpen, RawEnd, QuoteEnd, LineEnd, BlockEnd, HiddenIn;
    ghost var target := Mask(ModuleSize, text);
    MaskLength(ModuleSize, text);
    var output := new char[|text|](i requires 0 <= i < |text| => text[i]);
    var index: nat := 0;
    while index < |text|
      invariant Done(output, text, target, index) && Resumes(ModuleSize, text, target, index)
      decreases |text| - index
    {
      var start := index;
      EnterConstruct(ModuleSize, text, target, start);
      ConstructCases(ModuleSize, text, start);
      if At(text, index, '/') && At(text, index + 1, '/') {
        index := LineEnd(text, index + 2);
      } else if At(text, index, '/') && At(text, index + 1, '*') {
        index := SkipComment(text, index + 2);
      } else if CharEnd(ModuleSize, text, index).Some? {
        index := CharEnd(ModuleSize, text, index).value;
      } else if RawOpen(text, index).Some? {
        index := RawEnd(text, index + 2 + RawOpen(text, index).value, RawOpen(text, index).value);
      } else if text[index] == QUOTE {
        index := SkipString(text, index + 1);
        index := if index <= |text| then index else |text|;
      } else {
        index := index + 1;
        continue;
      }
      BlankTo(output, text, target, start, index);
    }
    assert output[..] == target;
    return output[..];
  }
}
