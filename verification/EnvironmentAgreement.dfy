/**
 When the environment parser reads from a rendered file the original settings overridden
 by the managed ones: exactly when every line, as it is rendered, still assigns what it did.
 */
module EnvironmentAgreement {
  import opened Wrappers
  import opened Text
  import opened EnvironmentFile
  import opened EnvironmentKeys
  import opened EnvironmentLines
  import opened EnvironmentRender

  // ---------------------------------------------------------------- the parser on lists of lines

  /** Two readings one after the other. */
  function Both(a: Option<Values>, b: Option<Values>): Option<Values> {
    if a.None? || b.None? || !Apart(a.value, b.value) then None else Some(a.value + b.value)
  }

  predicate Apart(a: Values, b: Values) {
    forall k :: k in a ==> k !in b
  }

  lemma BothAssociates(a: Option<Values>, b: Option<Values>, c: Option<Values>)
    ensures Both(Both(a, b), c) == Both(a, Both(b, c))
  {
    if a.Some? && b.Some? && c.Some? {
      var x, y, z := a.value, b.value, c.value;
      assert (x + y) + z == x + (y + z);
    }
  }

  lemma BothUnit(a: Option<Values>)
    ensures Both(a, Some(map[])) == a && Both(Some(map[]), a) == a
  {
    if a.Some? { assert a.value + map[] == a.value && map[] + a.value == a.value; }
  }

  lemma OneLine(lines: seq<string>, line: string)
    ensures Parsed(lines + [line]) == Both(Parsed(lines), Parsed([line]))
  {
    hide ParseLine;
    BothUnit(Parsed(lines));
    if Parsed(lines).Some? && ParseLine(line).Assign? {
      var m, k, v := Parsed(lines).value, ParseLine(line).key, ParseLine(line).value;
      assert m[k := v] == m + map[k := v];
    }
  }

  lemma {:induction false} ParsedConcat(a: seq<string>, b: seq<string>)
    ensures Parsed(a + b) == Both(Parsed(a), Parsed(b))
  {
    hide ParseLine, Both;
    if b == [] {
      assert a + b == a;
      BothUnit(Parsed(a));
    } else {
      var n := |b| - 1;
      ParsedConcat(a, b[..n]);
      assert a + b == a + b[..n] + [b[n]] && b == b[..n] + [b[n]];
      OneLine(a + b[..n], b[n]);
      OneLine(b[..n], b[n]);
      BothAssociates(Parsed(a), Parsed(b[..n]), Parsed([b[n]]));
    }
  }

  lemma {:induction false} ParsedAlike(a: seq<string>, b: seq<string>)
    requires |a| == |b| && forall i :: 0 <= i < |a| ==> ParseLine(a[i]) == ParseLine(b[i])
    ensures Parsed(a) == Parsed(b)
  {
    hide ParseLine;
    if a != [] {
      var n := |a| - 1;
      ParsedAlike(a[..n], b[..n]);
    }
  }

  // ---------------------------------------------------------------- the parser's lines and the renderers' pieces

  /** The lines of a text as the parser sees them, each with its newline. */
  function Chunks(s: string): seq<string> {
    if s == "" then []
    else
      var n := IndexOf(s, '\n');
      var cut := if n < |s| then n + 1 else n;
      [s[..cut]] + Chunks(s[cut..])
  }

  /** What a renderer makes of one chunk: lines of the parser again, which may have inner line breaks. */
  function Block(plan: Plan, chunk: string): seq<string> {
    if plan.mlx then Kept(plan, SplitLines(chunk))
    else if FmText(plan, chunk) == "" then []
    else [FmText(plan, chunk)]
  }

  lemma FoundBefore(s: string, e: nat, n: nat)
    requires IndexOf(s, '=') == e < n <= |s|
    ensures IndexOf(s[..n], '=') == e
  {
    EqualsAt(s[..n], e);
  }

  lemma FoundAfter(s: string, e: nat, n: nat)
    requires n <= IndexOf(s, '=') == e < |s|
    ensures IndexOf(s[n..], '=') == e - n
  {
  }

  lemma EqualsIsNoBreak(s: string, e: nat)
    requires IndexOf(s, '=') == e < |s|
    ensures s[e] == '=' && e != BreakAt(s) && (BreakAt(s) < e ==> AfterBreak(s) <= e)
  {
    hide *;
    EqualsIsNone();
    AfterBreakIs(s);
  }

  lemma EqualsIsNone()
    ensures !LineBreak('=')
  {
  }

  /** A piece before the first equals sign, or the piece that has it. */
  lemma FirstPiece(s: string)
    requires IndexOf(s, '=') < |s|
    ensures var e, b, c := IndexOf(s, '='), BreakAt(s), AfterBreak(s);
            if e < b then IndexOf(s[..b], '=') == IndexOf(s[..c], '=') == e
            else c <= e && IndexOf(s[c..], '=') == e - c
  {
    hide *;
    var e := IndexOf(s, '=');
    EqualsIsNoBreak(s, e);
    if e < BreakAt(s) {
      FoundBefore(s, e, BreakAt(s));
      FoundBefore(s, e, AfterBreak(s));
    } else {
      FoundAfter(s, e, AfterBreak(s));
    }
  }

  lemma HoldsStands(s: string, key: string) returns (at: nat)
    requires Holds(s, key)
    ensures StandsAt(s, at, key) && at + |key| == IndexOf(s, '=')
  {
    at := KeyFrom(s, IndexOf(s, '='));
    hide KeyChar;
  }

  lemma SliceStands(s: string, a: nat, b: nat, at: nat, key: string)
    requires StandsAt(s, at, key) && a <= at && at + |key| < b <= |s|
    ensures StandsAt(s[a..b], at - a, key)
  {
    hide KeyChar;
    var t := s[a..b];
    forall k | 0 <= k < b - a ensures t[k] == s[a + k] {}
  }

  /** A slice that has the key, what stands before it and its equals sign holds it too. */
  lemma SliceHolds(s: string, a: nat, b: nat, key: string)
    requires Holds(s, key) && a <= IndexOf(s, '=') < b <= |s| && (a > 0 ==> !KeyChar(s[a - 1]))
    ensures Holds(s[a..b], key)
  {
    hide *;
    var at := HoldsStands(s, key);
    KeyIsNotCut(s, at, key, a);
    SliceStands(s, a, b, at, key);
    NoHashInSlice(s, a, b, key);
    StandingHolds(s[a..b], at - a, key);
  }

  lemma StandingHolds(s: string, at: nat, key: string)
    requires StandsAt(s, at, key) && forall k :: 0 <= k < at + |key| ==> s[k] != '#'
    ensures Holds(s, key)
  {
    hide KeyChar, KeyBefore;
    StandingKeyIsBefore(s, at, key);
  }

  lemma NoHashInSlice(s: string, a: nat, b: nat, key: string)
    requires Holds(s, key) && a <= IndexOf(s, '=') < b <= |s|
    ensures forall k :: 0 <= k < IndexOf(s, '=') - a ==> s[a..b][k] != '#'
  {
  }

  lemma KeyIsNotCut(s: string, at: nat, key: string, a: nat)
    requires StandsAt(s, at, key) && a <= at + |key| && (a > 0 ==> !KeyChar(s[a - 1]))
    ensures a <= at
  {
  }

  lemma BreakIsNoKey(c: char)
    requires LineBreak(c)
    ensures !KeyChar(c) && c != '#' && c != '='
  {
  }

  lemma BreakEndsNoKey(s: string)
    requires 0 < AfterBreak(s) && BreakAt(s) < |s|
    ensures !KeyChar(s[AfterBreak(s) - 1])
  {
    BreakIsNoKey(s[BreakAt(s)]);
    assert LineBreak('\n');
    BreakIsNoKey('\n');
    hide KeyChar, LineBreak;
  }

  /** mlx keeps, as a line of its own, the piece that holds an unmanaged key. */
  lemma {:induction false} MainPieceIsKept(plan: Plan, s: string, key: string) returns (x: string)
    requires Valid(plan) && Holds(s, key) && key !in Keys(plan.managed)
    ensures x in Kept(plan, SplitLines(s)) && Holds(x, key)
    decreases |s|
  {
    hide Valid, Holds, Keys, BreakAt, AfterBreak, KeyBefore, Kept, SplitLines;
    HeldHasEquals(s, key);
    Splitting(s);
    var b, c := BreakAt(s), AfterBreak(s);
    FirstPiece(s);
    KeptAppend(plan, [s[..b]], SplitLines(s[c..]));
    if IndexOf(s, '=') < b {
      x := s[..b];
      SliceHolds(s, 0, b, key);
      HeldIsUnmanaged(plan, x, key);
      KeptOne(plan, x);
    } else {
      BreakEndsNoKey(s);
      SliceHolds(s, c, |s|, key);
      assert s[c..|s|] == s[c..];
      x := MainPieceIsKept(plan, s[c..], key);
    }
  }

  lemma HeldHasEquals(s: string, key: string)
    requires Holds(s, key)
    ensures IndexOf(s, '=') < |s| && s != ""
  {
  }

  lemma BreakIsBefore(s: string)
    requires BreakAt(s) <= IndexOf(s, '=') < |s|
    ensures BreakAt(s) < |s| && 0 < AfterBreak(s)
  {
  }

  lemma KeptOne(plan: Plan, x: string)
    requires ManagedKey(plan, x).None? && x != plan.header
    ensures Kept(plan, [x]) == [x]
  {
  }

  lemma AppendHolds(s: string, more: string, key: string)
    requires Holds(s, key)
    ensures Holds(s + more, key)
  {
    hide KeyChar, KeyBefore, StandsAt;
    var at := HoldsStands(s, key);
    var t := s + more;
    LongerStands(s, more, at, key);
    forall k | 0 <= k < at + |key| ensures t[k] != '#' { assert t[k] == s[k]; }
    StandingHolds(t, at, key);
  }

  lemma LongerStands(s: string, more: string, at: nat, key: string)
    requires StandsAt(s, at, key)
    ensures StandsAt(s + more, at, key)
  {
  }

  lemma PrependHolds(p: string, s: string, key: string)
    requires Holds(s, key) && p != "" && !KeyChar(p[|p| - 1]) && forall k :: 0 <= k < |p| ==> p[k] != '=' && p[k] != '#'
    ensures Holds(p + s, key)
  {
    hide KeyChar, KeyBefore, StandsAt;
    var at := HoldsStands(s, key);
    var t := p + s;
    LaterStands(p, s, at, key);
    forall k | 0 <= k < |p| + at + |key| ensures t[k] != '#' {
      if k < |p| { assert t[k] == p[k]; } else { assert t[k] == s[k - |p|]; }
    }
    StandingHolds(t, |p| + at, key);
  }

  lemma LaterStands(p: string, s: string, at: nat, key: string)
    requires StandsAt(s, at, key) && p != "" && !KeyChar(p[|p| - 1]) && forall k :: 0 <= k < |p| ==> p[k] != '='
    ensures StandsAt(p + s, |p| + at, key)
  {
  }

  /** fm keeps a piece that has no hash before its unmanaged key, or no key at all. */
  lemma PieceIsKept(plan: Plan, p: string, key: string)
    requires Valid(plan) && key !in Keys(plan.managed)
    requires Holds(p, key) || forall k :: 0 <= k < |p| ==> p[k] != '=' && p[k] != '#'
    ensures !Dropped(plan, p)
  {
    HeaderHash(plan);
    hide Bare, Holds, ManagedKey, Valid;
    if Holds(p, key) {
      HeldIsUnmanaged(plan, p, key);
    } else {
      NoEqualsNoKey(plan, p);
    }
  }

  lemma HeaderHash(plan: Plan)
    requires Valid(plan)
    ensures plan.header != "" && plan.header[0] == '#'
  {
  }

  lemma NoEqualsNoKey(plan: Plan, p: string)
    requires forall k :: 0 <= k < |p| ==> p[k] != '='
    ensures ManagedKey(plan, p).None?
  {
    hide AssignedKey, Keys;
    if AssignedKey(p).Some? { KeyHasEquals(p); }
  }

  /** fm keeps everything up to an unmanaged key, so what it keeps of a line still holds the key. */
  lemma {:induction false} FmTextHolds(plan: Plan, s: string, key: string)
    requires Valid(plan) && Holds(s, key) && key !in Keys(plan.managed)
    ensures Holds(FmText(plan, s), key)
    decreases |s|
  {
    hide Valid, Holds, Keys, BreakAt, AfterBreak, KeyBefore, FmText, Dropped;
    HeldHasEquals(s, key);
    FmTextCons(plan, s);
    var b, c := BreakAt(s), AfterBreak(s);
    FirstPiece(s);
    if IndexOf(s, '=') < b {
      SliceHolds(s, 0, c, key);
      assert s[0..c] == s[..c];
      PieceIsKept(plan, s[..c], key);
      AppendHolds(s[..c], FmText(plan, s[c..]), key);
    } else {
      BreakIsBefore(s);
      BreakEndsNoKey(s);
      SliceHolds(s, c, |s|, key);
      assert s[c..|s|] == s[c..];
      NothingBefore(s, c, key);
      PieceIsKept(plan, s[..c], key);
      FmTextHolds(plan, s[c..], key);
      PrependHolds(s[..c], FmText(plan, s[c..]), key);
    }
  }

  lemma NothingBefore(s: string, c: nat, key: string)
    requires Holds(s, key) && c <= IndexOf(s, '=')
    ensures forall k :: 0 <= k < c ==> s[..c][k] != '=' && s[..c][k] != '#'
  {
  }

  // ---------------------------------------------------------------- line by line

  function Flat(blocks: seq<seq<string>>): seq<string> {
    if blocks == [] then [] else Flat(blocks[..|blocks| - 1]) + blocks[|blocks| - 1]
  }

  /** What a line assigns that is not managed. */
  function Own(plan: Plan, line: string): Values {
    if ParseLine(line).Assign? && ParseLine(line).key !in Keys(plan.managed) then
         map[ParseLine(line).key := ParseLine(line).value]
    else map[]
  }

  /** What is left of a line assigns what the line assigned, outside the managed keys. */
  ghost predicate Yields(plan: Plan, line: string, block: seq<string>) {
    Parsed(block) == Some(Own(plan, line))
  }

  ghost predicate AllYield(plan: Plan, lines: seq<string>, blocks: seq<seq<string>>) {
    |blocks| == |lines| && forall i :: 0 <= i < |lines| ==> Yields(plan, lines[i], blocks[i])
  }

  /** What is left of a line that assigns an unmanaged key assigns that key, or is malformed. */
  ghost predicate Retains(plan: Plan, line: string, block: seq<string>) {
    Parsed(block).Some? ==> Own(plan, line).Keys <= Parsed(block).value.Keys
  }

  ghost predicate AllRetain(plan: Plan, lines: seq<string>, blocks: seq<seq<string>>) {
    |blocks| == |lines| && forall i :: 0 <= i < |lines| ==> Retains(plan, lines[i], blocks[i])
  }

  lemma OwnParses(plan: Plan, before: Values, line: string, m: Values)
    requires Both(Some(before), Parsed([line])) == Some(m)
    ensures m - Keys(plan.managed) == (before - Keys(plan.managed)) + Own(plan, line)
    ensures Apart(before - Keys(plan.managed), Own(plan, line))
  {
    hide ParseLine, Keys;
    ParsedAdd([], line);
    assert [] + [line] == [line];
  }

  lemma SplitReading(f: Values, b: Values, before: Values, own: Values)
    requires Apart(f, b) && Apart(before, own) && f + b == before + own && before.Keys <= f.Keys && own.Keys <= b.Keys
    ensures f == before && b == own
  {
    forall k | k in f ensures k in before && f[k] == before[k] { assert (f + b)[k] == f[k] && k in before + own; }
    forall k | k in b ensures k in own && b[k] == own[k] { assert (f + b)[k] == b[k] && k in before + own; }
  }

  /** Two readings make up a whole exactly when each is its part, if neither lacks a key of its part. */
  lemma PartsOfAReading(f: Option<Values>, b: Option<Values>, before: Values, own: Values)
    requires Apart(before, own) && (f.Some? ==> before.Keys <= f.value.Keys) && (b.Some? ==> own.Keys <= b.value.Keys)
    ensures Both(f, b) == Some(before + own) <==> f == Some(before) && b == Some(own)
  {
    if Both(f, b) == Some(before + own) { SplitReading(f.value, b.value, before, own); }
  }

  lemma YieldsSnoc(plan: Plan, lines: seq<string>, blocks: seq<seq<string>>)
    requires lines != [] && |blocks| == |lines|
    ensures var n := |lines| - 1; AllYield(plan, lines, blocks) <==>
              AllYield(plan, lines[..n], blocks[..n]) && Yields(plan, lines[n], blocks[n])
  {
    hide Yields;
    var n := |lines| - 1;
    forall i | 0 <= i < n ensures lines[..n][i] == lines[i] && blocks[..n][i] == blocks[i] {}
  }

  lemma {:induction false} NothingIsLost(plan: Plan, lines: seq<string>, blocks: seq<seq<string>>, m: Values)
    requires Parsed(lines) == Some(m) && AllRetain(plan, lines, blocks) && Parsed(Flat(blocks)).Some?
    ensures (m - Keys(plan.managed)).Keys <= Parsed(Flat(blocks)).value.Keys
  {
    hide ParseLine, Keys, Own;
    if lines == [] {
    } else {
      var n := |lines| - 1;
      OneLine(lines[..n], lines[n]);
      ParsedConcat(Flat(blocks[..n]), blocks[n]);
      NothingIsLost(plan, lines[..n], blocks[..n], Parsed(lines[..n]).value);
      OwnParses(plan, Parsed(lines[..n]).value, lines[n], m);
    }
  }

  /** The blocks together read as the lines without the managed keys exactly when each does by itself. */
  lemma {:induction false} BlocksAgree(plan: Plan, lines: seq<string>, blocks: seq<seq<string>>, m: Values)
    requires Parsed(lines) == Some(m) && AllRetain(plan, lines, blocks)
    ensures Parsed(Flat(blocks)) == Some(m - Keys(plan.managed)) <==> AllYield(plan, lines, blocks)
  {
    hide ParseLine, Keys, Own;
    if lines == [] {
      assert m - Keys(plan.managed) == map[];
    } else {
      var n := |lines| - 1;
      var before := lines[..n];
      OneLine(before, lines[n]);
      var m0 := Parsed(before).value;
      ParsedConcat(Flat(blocks[..n]), blocks[n]);
      OwnParses(plan, m0, lines[n], m);
      BlocksAgree(plan, before, blocks[..n], m0);
      YieldsSnoc(plan, lines, blocks);
      hide Parsed, Both, AllYield, AllRetain, Apart, Flat;
      if Parsed(Flat(blocks[..n])).Some? { NothingIsLost(plan, before, blocks[..n], m0); }
      PartsOfAReading(Parsed(Flat(blocks[..n])), Parsed(blocks[n]), m0 - Keys(plan.managed), Own(plan, lines[n]));
    }
  }

  // ---------------------------------------------------------------- what is left of each line

  lemma {:induction false} ListAssigns(lines: seq<string>, x: string, key: string)
    requires x in lines && (ParseLine(x) == Bad || (ParseLine(x).Assign? && ParseLine(x).key == key))
    ensures Parsed(lines).Some? ==> key in Parsed(lines).value
  {
    hide ParseLine;
    var n := |lines| - 1;
    if x != lines[n] { ListAssigns(lines[..n], x, key); }
  }

  lemma {:induction false} TrimmedKeeps(lines: seq<string>, x: string)
    requires x in lines && Strip(x, PySpace) != ""
    ensures x in Trimmed(lines)
  {
    hide Strip;
    var n := |lines| - 1;
    if Strip(lines[n], PySpace) == "" { TrimmedKeeps(lines[..n], x); }
  }

  lemma HeldIsNotBlank(x: string, key: string)
    requires Holds(x, key)
    ensures Strip(x, PySpace) != ""
  {
  }

  lemma RetainedBlock(plan: Plan, chunk: string, block: seq<string>, x: string, key: string)
    requires x in block && Holds(x, key) && Own(plan, chunk).Keys <= {key}
    ensures Retains(plan, chunk, block)
  {
    hide Holds, Own, ParseLine;
    HeldLine(x, key);
    ListAssigns(block, x, key);
  }

  lemma OwnKey(plan: Plan, chunk: string)
    ensures Own(plan, chunk) == map[] ||
            (ParseLine(chunk).Assign? && ParseLine(chunk).key !in Keys(plan.managed)
             && Own(plan, chunk).Keys == {ParseLine(chunk).key})
  {
  }

  /** Neither renderer loses an unmanaged key of a line, except by leaving something malformed. */
  lemma BlockRetains(plan: Plan, chunk: string)
    requires Valid(plan)
    ensures Retains(plan, chunk, Block(plan, chunk)) && (plan.mlx ==> Retains(plan, chunk, Trimmed(Block(plan, chunk))))
  {
    hide Valid, Holds, Own, ParseLine, Keys, FmText, Kept, SplitLines, Trimmed, Parsed;
    OwnKey(plan, chunk);
    if Own(plan, chunk) != map[] {
      var key := ParseLine(chunk).key;
      AssignmentHolds(chunk);
      if plan.mlx {
        var x := MainPieceIsKept(plan, chunk, key);
        RetainedBlock(plan, chunk, Block(plan, chunk), x, key);
        HeldIsNotBlank(x, key);
        TrimmedKeeps(Block(plan, chunk), x);
        RetainedBlock(plan, chunk, Trimmed(Block(plan, chunk)), x, key);
      } else {
        FmTextHolds(plan, chunk, key);
        HeldHasEquals(FmText(plan, chunk), key);
        RetainedBlock(plan, chunk, Block(plan, chunk), FmText(plan, chunk), key);
      }
    }
  }

  function Blocks(plan: Plan, chunks: seq<string>): seq<seq<string>> {
    seq(|chunks|, i requires 0 <= i < |chunks| => Block(plan, chunks[i]))
  }

  /** Blocks without the blank lines at the end of the last ones. */
  function TrimBlocks(blocks: seq<seq<string>>): (t: seq<seq<string>>)
    ensures |t| == |blocks| && forall i :: 0 <= i < |t| ==> t[i] == blocks[i] || t[i] == Trimmed(blocks[i])
  {
    if blocks == [] then []
    else
      var n := |blocks| - 1;
      if Trimmed(blocks[n]) == [] then TrimBlocks(blocks[..n]) + [Trimmed(blocks[n])]
      else blocks[..n] + [Trimmed(blocks[n])]
  }

  /** What is left of each chunk in the rendered file. */
  function Left(plan: Plan, chunks: seq<string>): seq<seq<string>> {
    if plan.mlx then TrimBlocks(Blocks(plan, chunks)) else Blocks(plan, chunks)
  }

  lemma LeftRetains(plan: Plan, chunks: seq<string>)
    requires Valid(plan)
    ensures AllRetain(plan, chunks, Left(plan, chunks))
  {
    hide Valid, Block, Retains;
    forall i | 0 <= i < |chunks| ensures Retains(plan, chunks[i], Left(plan, chunks)[i]) {
      BlockRetains(plan, chunks[i]);
    }
  }

  lemma {:induction false} TrimmedAppend(a: seq<string>, b: seq<string>)
    ensures Trimmed(a + b) == if Trimmed(b) == [] then Trimmed(a) else a + Trimmed(b)
  {
    hide Strip;
    if b == [] {
      NothingAdded(a);
    } else {
      var n := |b| - 1;
      assert (a + b)[..|a + b| - 1] == a + b[..n];
      if Strip(b[n], PySpace) == "" { TrimmedAppend(a, b[..n]); }
    }
  }

  lemma {:induction false} TrimBlocksIsTrimmed(blocks: seq<seq<string>>)
    ensures Flat(TrimBlocks(blocks)) == Trimmed(Flat(blocks))
  {
    hide Trimmed;
    if blocks == [] {
    } else {
      var n := |blocks| - 1;
      TrimmedAppend(Flat(blocks[..n]), blocks[n]);
      if Trimmed(blocks[n]) == [] {
        TrimBlocksIsTrimmed(blocks[..n]);
      } else {
      }
    }
  }

  lemma FlatSnoc(blocks: seq<seq<string>>, block: seq<string>)
    ensures Flat(blocks + [block]) == Flat(blocks) + block
  {
  }

  lemma {:induction false} FlatCons(block: seq<string>, blocks: seq<seq<string>>)
    ensures Flat([block] + blocks) == block + Flat(blocks)
  {
    if blocks == [] {
    } else {
      var n := |blocks| - 1;
      FlatCons(block, blocks[..n]);
      assert [block] + blocks == ([block] + blocks[..n]) + [blocks[n]] && blocks == blocks[..n] + [blocks[n]];
      FlatSnoc([block] + blocks[..n], blocks[n]);
    }
  }

  // ---------------------------------------------------------------- chunks

  function Cut(s: string): (n: nat)
    ensures n <= |s| && (s != "" ==> 0 < n)
  {
    if IndexOf(s, '\n') < |s| then IndexOf(s, '\n') + 1 else |s|
  }

  /** One chunk: newlines at most at its end, and the text goes on only after one. */
  lemma FirstChunk(s: string)
    requires s != ""
    ensures var c, rest := s[..Cut(s)], s[Cut(s)..];
            && Chunks(s) == [c] + Chunks(rest) && c + rest == s && '\n' !in c[..|c| - 1]
            && (c[|c| - 1] == '\n' || rest == "")
  {
  }

  lemma NoChunks(s: string)
    requires s == ""
    ensures Chunks(s) == [] && SplitLines(s) == [] && SplitKeep(s) == []
  {
  }

  lemma LineEnd(c: string)
    requires c != "" && c[|c| - 1] == '\n'
    ensures EndsLine(c) && c == c[..|c| - 1] + "\n"
  {
  }

  lemma BlocksCons(plan: Plan, c: string, chunks: seq<string>)
    ensures Blocks(plan, [c] + chunks) == [Block(plan, c)] + Blocks(plan, chunks)
  {
    hide Block;
  }

  lemma {:induction false} MlxBlocks(plan: Plan, s: string)
    requires plan.mlx
    ensures Kept(plan, SplitLines(s)) == Flat(Blocks(plan, Chunks(s)))
    decreases |s|
  {
    hide SplitLines, Kept, Chunks, Cut, Blocks, Flat, EndsLine;
    if s == "" {
      NoChunks(s);
      NoBlocks(plan);
    } else {
      FirstChunk(s);
      var c, rest := s[..Cut(s)], s[Cut(s)..];
      MlxBlocks(plan, rest);
      BlocksCons(plan, c, Chunks(rest));
      FlatCons(Block(plan, c), Blocks(plan, Chunks(rest)));
      if rest == "" {
        NoChunks(rest);
        NoBlocks(plan);
        assert s == c;
      } else {
        LineEnd(c);
        PiecesAppend(c, rest);
        KeptAppend(plan, SplitLines(c), SplitLines(rest));
      }
    }
  }

  lemma NoBlocks(plan: Plan)
    ensures Blocks(plan, []) == [] && Flat([]) == [] && Kept(plan, []) == [] && FmText(plan, "") == ""
            && Concat([]) == ""
  {
  }

  lemma ConcatOfBlock(plan: Plan, c: string)
    requires !plan.mlx
    ensures Concat(Block(plan, c)) == FmText(plan, c)
  {
  }

  lemma {:induction false} FmBlocks(plan: Plan, s: string)
    requires !plan.mlx
    ensures FmText(plan, s) == Concat(Flat(Blocks(plan, Chunks(s))))
    decreases |s|
  {
    hide FmText, Chunks, Cut, Blocks, Flat, Block, Concat, EndsLine;
    NoBlocks(plan);
    if s == "" {
      NoChunks(s);
    } else {
      FirstChunk(s);
      var c, rest := s[..Cut(s)], s[Cut(s)..];
      FmBlocks(plan, rest);
      BlocksCons(plan, c, Chunks(rest));
      FlatCons(Block(plan, c), Blocks(plan, Chunks(rest)));
      ConcatOfBlock(plan, c);
      ConcatBoth(Block(plan, c), Flat(Blocks(plan, Chunks(rest))));
      if rest == "" {
        assert s == c && FmText(plan, c) + "" == FmText(plan, c);
      } else {
        LineEnd(c);
        FmTextAppend(plan, c, rest);
      }
    }
  }

  /** The parser does not look at a line's newline. */
  lemma NewlineIsIgnored(l: string)
    ensures ParseLine(l + "\n") == ParseLine(l)
  {
    StripRustNewline(l);
    hide Strip, ParseBody, AfterExport;
  }

  lemma {:induction false} TrimLeftRustNewline(l: string)
    ensures TrimLeft(l + "\n", RustSpace) ==
              (if TrimLeft(l, RustSpace) == "" then "" else TrimLeft(l, RustSpace) + "\n")
  {
    if l != "" {
      assert (l + "\n")[1..] == l[1..] + "\n";
      if RustSpace(l[0]) { TrimLeftRustNewline(l[1..]); }
    }
  }

  lemma StripRustNewline(l: string)
    ensures Strip(l + "\n", RustSpace) == Strip(l, RustSpace)
  {
    TrimLeftRustNewline(l);
    assert RustSpace('\n');
    hide RustSpace, TrimLeft;
    var t := TrimLeft(l, RustSpace);
  }

  lemma {:induction false} ChunksParse(s: string)
    ensures Parsed(Chunks(s)) == Parsed(Split(s))
    decreases |s|
  {
    hide ParseLine, Parsed, Chunks, Cut, Split, Both;
    NothingParsed();
    if s == "" {
      NoChunks(s);
    } else {
      FirstChunk(s);
      var c, rest := s[..Cut(s)], s[Cut(s)..];
      ChunksParse(rest);
      ParsedConcat([c], Chunks(rest));
      if c[|c| - 1] == '\n' {
        LineEnd(c);
        SplitLine(c[..|c| - 1], rest);
        ParsedConcat([c[..|c| - 1]], Split(rest));
        NewlineIsIgnored(c[..|c| - 1]);
        ParsedAlike([c], [c[..|c| - 1]]);
      } else {
        assert s == c;
        OneLineOnly(s);
        BothUnit(Parsed([c]));
      }
    }
  }

  lemma NothingParsed()
    ensures Parsed([]) == Some(map[]) && Parsed(Split("")) == Some(map[])
  {
  }

  /** A newline at the end and nowhere else. */
  predicate Ended(x: string) {
    x != "" && x[|x| - 1] == '\n' && '\n' !in x[..|x| - 1]
  }

  ghost predicate AllEnded(xs: seq<string>) {
    forall i :: 0 <= i < |xs| ==> Ended(xs[i])
  }

  lemma ChunkInFront(x: string, rest: string)
    requires Ended(x)
    ensures Chunks(x + rest) == [x] + Chunks(rest)
  {
    var s, n := x + rest, |x| - 1;
    assert s[n] == '\n';
    forall k | 0 <= k < n ensures s[k] != '\n' { assert s[k] == x[..n][k]; }
    hide IndexOf;
  }

  lemma ChunkAlone(x: string)
    requires x != "" && '\n' !in x[..|x| - 1]
    ensures Chunks(x) == [x]
  {
    FirstChunk(x);
    hide Chunks;
    forall k | 0 <= k < |x| - 1 ensures x[k] != '\n' { assert x[k] == x[..|x| - 1][k]; }
    assert Cut(x) == |x| && x[..|x|] == x;
  }

  lemma FirstIsEnded(a: string)
    requires a != "" && EndsLine(a)
    ensures Ended(a[..Cut(a)]) && EndsLine(a[Cut(a)..])
  {
  }

  lemma {:induction false} ChunksAppend(a: string, b: string)
    requires EndsLine(a)
    ensures Chunks(a + b) == Chunks(a) + Chunks(b)
    decreases |a|
  {
    hide *;
    if a == "" {
      NoChunks(a);
      assert a + b == b;
    } else {
      FirstChunk(a);
      FirstIsEnded(a);
      ChunksAppend(a[Cut(a)..], b);
      ChunkInFront(a[..Cut(a)], a[Cut(a)..] + b);
      OneCut(a, b, Cut(a));
    }
  }

  lemma OneCut(a: string, b: string, n: nat)
    requires n <= |a|
    ensures a[..n] + (a[n..] + b) == a + b
  {
  }

  lemma {:induction false} ChunksOfEnded(xs: seq<string>)
    requires AllEnded(xs)
    ensures Chunks(Concat(xs)) == xs && EndsLine(Concat(xs))
  {
    hide Chunks;
    if xs == [] {
      NoChunks("");
    } else {
      var n := |xs| - 1;
      ChunksOfEnded(xs[..n]);
      ChunksAppend(Concat(xs[..n]), xs[n]);
      ChunkAlone(xs[n]);
    }
  }

  /** What fm keeps of one line has a newline at most at its end. */
  lemma {:induction false} FmTextIsALine(plan: Plan, s: string)
    requires s != "" ==> '\n' !in s[..|s| - 1]
    ensures var x := FmText(plan, s); x != "" ==> '\n' !in x[..|x| - 1]
    decreases |s|
  {
    hide FmText, BreakAt, AfterBreak, Dropped;
    if s == "" {
      NoBlocks(plan);
    } else {
      FmTextCons(plan, s);
      var c := AfterBreak(s);
      var p, rest := s[..c], s[c..];
      forall k | 0 <= k < |rest| - 1 ensures rest[k] != '\n' { assert rest[k] == s[..|s| - 1][c + k]; }
      FmTextIsALine(plan, rest);
      if rest == "" {
        NoBlocks(plan);
      } else {
        forall k | 0 <= k < c ensures p[k] != '\n' { assert p[k] == s[..|s| - 1][k]; }
      }
    }
  }

  lemma {:induction false} ChunksAreLines(s: string)
    ensures forall i :: 0 <= i < |Chunks(s)| ==> Chunks(s)[i] != "" && '\n' !in Chunks(s)[i][..|Chunks(s)[i]| - 1]
    decreases |s|
  {
    hide Chunks, Cut;
    if s == "" {
      NoChunks(s);
    } else {
      FirstChunk(s);
      ChunksAreLines(s[Cut(s)..]);
    }
  }

  /** fm drops the newline of no line but the last without dropping all of it. */
  ghost predicate NothingJoins(plan: Plan, chunks: seq<string>) {
    forall i :: 0 <= i < |chunks| - 1 ==> EndsLine(FmText(plan, chunks[i]))
  }

  lemma {:induction false} BlocksAreEnded(plan: Plan, chunks: seq<string>)
    requires !plan.mlx && forall i :: 0 <= i < |chunks| ==> EndsLine(FmText(plan, chunks[i]))
    requires forall i :: 0 <= i < |chunks| ==> chunks[i] != "" && '\n' !in chunks[i][..|chunks[i]| - 1]
    ensures AllEnded(Flat(Blocks(plan, chunks)))
  {
    hide FmText;
    if chunks != [] {
      var n := |chunks| - 1;
      BlocksAreEnded(plan, chunks[..n]);
      FmTextIsALine(plan, chunks[n]);
      BlocksSnoc(plan, chunks);
      hide Flat, Blocks;
    }
  }

  lemma BlocksSnoc(plan: Plan, chunks: seq<string>)
    requires chunks != []
    ensures var n := |chunks| - 1; Blocks(plan, chunks) == Blocks(plan, chunks[..n]) + [Block(plan, chunks[n])]
  {
    hide Block;
  }

  lemma FinishedLine(content: string, x: string)
    requires EndsLine(content)
    ensures Finished(content + x) == content + (if x == "" || x[|x| - 1] == '\n' then x else x + "\n")
    ensures EndsLine(Finished(content + x))
  {
  }

  /** If no line joins the next, what fm keeps reads as its lines one by one. */
  lemma FmContentParses(plan: Plan, original: string)
    requires !plan.mlx && NothingJoins(plan, Chunks(original))
    ensures Parsed(Chunks(Finished(FmText(plan, original)))) == Parsed(Flat(Blocks(plan, Chunks(original))))
    ensures EndsLine(Finished(FmText(plan, original)))
  {
    hide FmText, ParseLine, Parsed, Chunks, Finished, Concat, Flat, Blocks, Both, Ended;
    var chunks := Chunks(original);
    FmBlocks(plan, original);
    ChunksAreLines(original);
    if chunks == [] {
      NoBlocks(plan);
      FinishedLine("", "");
      NoChunks("");
    } else {
      var n := |chunks| - 1;
      var front, x := Flat(Blocks(plan, chunks[..n])), FmText(plan, chunks[n]);
      BlocksAreEnded(plan, chunks[..n]);
      ChunksOfEnded(front);
      BlocksSnoc(plan, chunks);
      FlatSnoc(Blocks(plan, chunks[..n]), Block(plan, chunks[n]));
      ConcatBoth(front, Block(plan, chunks[n]));
      ConcatOfBlock(plan, chunks[n]);
      FinishedLine(Concat(front), x);
      LastLineParses(plan, chunks[n], front);
    }
  }

  lemma LastLineParses(plan: Plan, chunk: string, front: seq<string>)
    requires !plan.mlx && chunk != "" && '\n' !in chunk[..|chunk| - 1] && Chunks(Concat(front)) == front
             && EndsLine(Concat(front))
    ensures var x := FmText(plan, chunk); var line := if x == "" || x[|x| - 1] == '\n' then x else x + "\n";
            Parsed(Chunks(Concat(front) + line)) == Parsed(front + Block(plan, chunk))
  {
    hide FmText, ParseLine, Parsed, Chunks, Concat, Both;
    var x := FmText(plan, chunk);
    FmTextIsALine(plan, chunk);
    if x == "" {
      NothingAdded(front);
      assert Concat(front) + x == Concat(front);
    } else if x[|x| - 1] == '\n' {
      ChunksAppend(Concat(front), x);
      ChunkAlone(x);
    } else {
      ChunksAppend(Concat(front), x + "\n");
      ChunkAlone(x + "\n");
      NewlineIsIgnored(x);
      ParsedAlike([x + "\n"], [x]);
      ParsedConcat(front, [x + "\n"]);
      ParsedConcat(front, [x]);
    }
  }

  // ---------------------------------------------------------------- the rendered file

  /** The pieces in which each renderer looks for managed keys. */
  function Pieces(plan: Plan, s: string): seq<string> {
    if plan.mlx then SplitLines(s) else SplitKeep(s)
  }

  /** What each line leaves in the rendered file assigns what the line assigned, outside the managed keys. */
  ghost predicate EachLineAgrees(plan: Plan, original: string) {
    AllYield(plan, Chunks(original), Left(plan, Chunks(original)))
  }

  /** The header and the managed assignments read as the managed settings. */
  lemma AppendedParse(plan: Plan)
    requires Valid(plan)
    ensures Parsed([plan.header] + Pairs(plan.managed)) == Some(Settings(plan.managed))
            && Settings(plan.managed).Keys == Keys(plan.managed)
  {
    hide ParseLine, Parsed, PlainExport, AssignedKey, ValidPair, Pairs, Clean, DistinctKeys, Keys, Settings;
    NothingParsed();
    CommentLine(plan.header);
    ParsedAddSkip([], plan.header);
    assert [] + [plan.header] == [plan.header];
    PairsParse([plan.header], map[], plan.managed);
    EmptyPlus(Settings(plan.managed));
  }

  lemma EmptyPlus(m: Values)
    ensures map[] + m == m
  {
  }

  /** Overriding recovers the unmanaged part. */
  lemma Overridden(plan: Plan, r: Option<Values>, m: Values)
    requires Settings(plan.managed).Keys == Keys(plan.managed)
    ensures Both(r, Some(Settings(plan.managed))) == Some(m + Settings(plan.managed)) <==>
              r == Some(m - Keys(plan.managed))
  {
    hide Keys, Settings;
    var s, keys := Settings(plan.managed), Keys(plan.managed);
    assert Apart(m - keys, s) && (m - keys) + s == m + s;
    if Both(r, Some(s)) == Some(m + s) {
      forall k | k in m - keys ensures k in r.value { assert k in m + s && k !in s && k in r.value + s; }
      assert r.value == m - keys;
    }
  }

  lemma EmptyLineSkips(lines: seq<string>)
    ensures Parsed(lines + [""]) == Parsed(lines)
  {
  }

  lemma MlxReads(plan: Plan, original: string)
    requires Valid(plan) && plan.mlx && Rendered(plan, original).Some?
    ensures Parsed(Split(Rendered(plan, original).value)) ==
            Both(Parsed(Flat(Left(plan, Chunks(original)))), Some(Settings(plan.managed)))
  {
    hide *;
    var lines := SplitLines(original);
    var out := Output(plan, lines);
    RenderedLines(plan, original);
    SplitUnlines(out);
    EmptyLineSkips(out);
    MlxOutputIs(plan, lines);
    ParsedConcat(Trimmed(Kept(plan, lines)) + [""], [plan.header] + Pairs(plan.managed));
    EmptyLineSkips(Trimmed(Kept(plan, lines)));
    AppendedParse(plan);
    MlxBlocks(plan, original);
    TrimBlocksIsTrimmed(Blocks(plan, Chunks(original)));
    LeftIs(plan, Chunks(original));
  }

  lemma MlxOutputIs(plan: Plan, lines: seq<string>)
    requires plan.mlx
    ensures Output(plan, lines) == (Trimmed(Kept(plan, lines)) + [""]) + ([plan.header] + Pairs(plan.managed))
  {
  }

  lemma LeftIs(plan: Plan, chunks: seq<string>)
    ensures Left(plan, chunks) == if plan.mlx then TrimBlocks(Blocks(plan, chunks)) else Blocks(plan, chunks)
  {
  }

  lemma FmReads(plan: Plan, original: string)
    requires Valid(plan) && !plan.mlx && Rendered(plan, original).Some? && NothingJoins(plan, Chunks(original))
    ensures Parsed(Split(Rendered(plan, original).value)) ==
            Both(Parsed(Flat(Left(plan, Chunks(original)))), Some(Settings(plan.managed)))
  {
    hide *;
    FmContentParses(plan, original);
    FmTextReads(plan, original);
    LeftIs(plan, Chunks(original));
  }

  /** The rendered fm file reads as its content, then the managed settings. */
  lemma FmTextReads(plan: Plan, original: string)
    requires Valid(plan) && !plan.mlx && Rendered(plan, original).Some?
    ensures Parsed(Split(Rendered(plan, original).value)) ==
            Both(Parsed(Chunks(Finished(FmText(plan, original)))), Some(Settings(plan.managed)))
  {
    hide *;
    var content, lines := Finished(FmText(plan, original)), [plan.header] + Pairs(plan.managed);
    FmRenderedIs(plan, original);
    FinishedIsKept(plan, original);
    ChunksParse(content + Unlines(lines));
    ChunksAppend(content, Unlines(lines));
    ParsedConcat(Chunks(content), Chunks(Unlines(lines)));
    ChunksParse(Unlines(lines));
    TailIsClean(plan);
    SplitUnlines(lines);
    EmptyLineSkips(lines);
    AppendedParse(plan);
  }

  lemma RenderedIfDistinct(plan: Plan, original: string)
    ensures Rendered(plan, original).Some? <==> Distinct(plan, Pieces(plan, original))
  {
  }

  /**
   The exact condition. Rendering succeeds exactly when no managed key is matched twice;
   the parser then reads the original assignments overridden by the managed settings
   exactly when each line, as rendered, still assigns what it did outside the managed
   keys. For fm this is so as long as no line loses its newline to the line after it.
   */
  lemma AgreesExactly(plan: Plan, original: string, m: Values)
    requires Valid(plan) && Parsed(Split(original)) == Some(m) && (!plan.mlx ==> NothingJoins(plan, Chunks(original)))
    ensures Rendered(plan, original).Some? <==> Distinct(plan, Pieces(plan, original))
    ensures Rendered(plan, original).Some? ==>
              (Parsed(Split(Rendered(plan, original).value)) == Some(m + Settings(plan.managed)) <==>
                 EachLineAgrees(plan, original))
  {
    hide *;
    RenderedIfDistinct(plan, original);
    if Rendered(plan, original).Some? {
      if plan.mlx { MlxReads(plan, original); } else { FmReads(plan, original); }
      AppendedParse(plan);
      Overridden(plan, Parsed(Flat(Left(plan, Chunks(original)))), m);
      ChunksParse(original);
      LeftRetains(plan, Chunks(original));
      BlocksAgree(plan, Chunks(original), Left(plan, Chunks(original)), m);
      EachIs(plan, original);
    }
  }

  /**
   For fm whatever its lines lose: the rendered file agrees exactly when the text it keeps,
   its lines joined as they then are, reads as the original assignments outside the managed keys.
   */
  lemma FmKeptTextDecides(plan: Plan, original: string, m: Values)
    requires Valid(plan) && !plan.mlx && Rendered(plan, original).Some?
    ensures Parsed(Split(Rendered(plan, original).value)) == Some(m + Settings(plan.managed))
            <==> Parsed(Chunks(Finished(FmText(plan, original)))) == Some(m - Keys(plan.managed))
  {
    hide *;
    FmTextReads(plan, original);
    AppendedParse(plan);
    Overridden(plan, Parsed(Chunks(Finished(FmText(plan, original)))), m);
  }

  lemma EachIs(plan: Plan, original: string)
    ensures EachLineAgrees(plan, original) <==> AllYield(plan, Chunks(original), Left(plan, Chunks(original)))
  {
  }

  // ---------------------------------------------------------------- nul characters

  ghost predicate NoNul(s: string) {
    '\0' !in s
  }

  ghost predicate NoNuls(lines: seq<string>) {
    forall i :: 0 <= i < |lines| ==> NoNul(lines[i])
  }

  lemma NoNulAppend(a: string, b: string)
    ensures NoNul(a + b) <==> NoNul(a) && NoNul(b)
  {
  }

  lemma {:induction false} UnlinesNoNul(lines: seq<string>)
    requires NoNuls(lines)
    ensures NoNul(Unlines(lines))
  {
    if lines != [] {
      UnlinesNoNul(lines[1..]);
    }
  }

  lemma PairNoNul(p: (string, string))
    requires ValidPair(p)
    ensures NoNul(Pair(p))
  {
    EscapedIsLonger(p.1);
    forall i | 0 <= i < |p.0| ensures p.0[i] != '\0' { assert KeyChar(p.0[i]); }
    hide KeyChar, EscapeQuotes;
  }

  lemma TailNoNul(plan: Plan)
    requires Valid(plan)
    ensures NoNuls([plan.header] + Pairs(plan.managed))
  {
    hide ValidPair, Pair, DistinctKeys, SecretsAreCleared, Clean;
    forall i | 0 <= i < |plan.managed| ensures NoNul(Pairs(plan.managed)[i]) { PairNoNul(plan.managed[i]); }
  }

  lemma SlicesNoNul(s: string, i: nat)
    requires NoNul(s) && i <= |s|
    ensures NoNul(s[..i]) && NoNul(s[i..])
  {
  }

  lemma {:induction false} SplitLinesNoNul(s: string)
    requires NoNul(s)
    ensures NoNuls(SplitLines(s))
  {
    hide BreakAt, AfterBreak, NoNul;
    if s != "" {
      SlicesNoNul(s, BreakAt(s));
      SlicesNoNul(s, AfterBreak(s));
      SplitLinesNoNul(s[AfterBreak(s)..]);
    }
  }

  lemma KeepNoNul(plan: Plan, line: string)
    requires Valid(plan) && NoNul(line)
    ensures NoNuls(Keep(plan, line))
  {
    NoticeNoNul(plan);
    NoNulAppend("# ", line);
    hide ManagedKey, ActiveSecret, NoNul, Valid;
  }

  lemma {:induction false} KeptNoNul(plan: Plan, lines: seq<string>)
    requires Valid(plan) && NoNuls(lines)
    ensures NoNuls(Kept(plan, lines))
  {
    hide Keep, NoNul, Valid;
    if lines != [] {
      var n := |lines| - 1;
      KeptNoNul(plan, lines[..n]);
      KeepNoNul(plan, lines[n]);
    }
  }

  lemma NoticeNoNul(plan: Plan)
    requires Valid(plan)
    ensures NoNul(plan.notice) && NoNul("# ") && NoNul("")
  {
  }

  lemma {:induction false} FmTextNoNul(plan: Plan, s: string)
    requires NoNul(s)
    ensures NoNul(FmText(plan, s))
    decreases |s|
  {
    hide FmText, BreakAt, AfterBreak, Dropped;
    if s == "" {
      NoBlocks(plan);
    } else {
      FmTextCons(plan, s);
      FmTextNoNul(plan, s[AfterBreak(s)..]);
    }
  }

  lemma NoNulsAppend(a: seq<string>, b: seq<string>)
    requires NoNuls(a) && NoNuls(b)
    ensures NoNuls(a + b)
  {
  }

  lemma NoNulsPrefix(a: seq<string>, b: seq<string>)
    requires NoNuls(b) && |a| <= |b| && a == b[..|a|]
    ensures NoNuls(a)
  {
  }

  lemma RenderedNoNul(plan: Plan, original: string)
    requires Valid(plan) && NoNul(original) && Rendered(plan, original).Some?
    ensures NoNul(Rendered(plan, original).value)
  {
    hide *;
    var tail := [plan.header] + Pairs(plan.managed);
    TailNoNul(plan);
    if plan.mlx {
      var lines := SplitLines(original);
      RenderedLines(plan, original);
      SplitLinesNoNul(original);
      KeptNoNul(plan, lines);
      NoNulsPrefix(Trimmed(Kept(plan, lines)), Kept(plan, lines));
      OneNoNul();
      NoNulsAppend(Trimmed(Kept(plan, lines)), [""]);
      NoNulsAppend(Trimmed(Kept(plan, lines)) + [""], tail);
      MlxOutputIs(plan, lines);
      UnlinesNoNul(Output(plan, lines));
    } else {
      FmRenderedIs(plan, original);
      FmTextNoNul(plan, original);
      UnlinesNoNul(tail);
      NoNulAppend(FmText(plan, original), "\n");
      FinishedIs(FmText(plan, original));
      NoNulAppend(Finished(FmText(plan, original)), Unlines(tail));
    }
  }

  lemma OneNoNul()
    ensures NoNuls([""]) && NoNul("\n")
  {
  }

  lemma FinishedIs(s: string)
    ensures Finished(s) == s || Finished(s) == s + "\n"
    ensures NoNul("\n")
  {
  }

  // ---------------------------------------------------------------- files whose only line breaks are newlines

  lemma OneKeyPlace(s: string, a: nat, x: string, b: nat, y: string)
    requires StandsAt(s, a, x) && StandsAt(s, b, y)
    ensures a == b && x == y
  {
  }

  /** Where the parser finds the key of an assignment. */
  lemma ParsedKeyPlace(raw: string) returns (a: nat)
    requires ParseLine(raw).Assign?
    ensures var line := Strip(raw, RustSpace); var from := |line| - |AfterExport(line)|;
            && a + |line| <= |raw| && raw[a..a + |line|] == line && (forall k :: 0 <= k < a ==> RustSpace(raw[k]))
            && 0 <= from < |line| && StandsAt(raw, a + from, ParseLine(raw).key)
  {
    hide Strip, AfterExport, ParseBody, StandsAt, Quiet, RustSpace, KeyChar;
    var line := Strip(raw, RustSpace);
    BodyStands(line);
    a := StrippedStands(raw);
    StandsFromBody(raw, a, line, |line| - |AfterExport(line)|, ParseBody(AfterExport(line)).key);
  }

  lemma StandsFromBody(raw: string, a: nat, line: string, at: nat, key: string)
    requires a + |line| <= |raw| && raw[a..a + |line|] == line && (forall k :: 0 <= k < a ==> RustSpace(raw[k]))
    requires at + |key| < |line| && Quiet(line, at) && line[at..at + |key|] == key && line[at + |key|] == '='
    requires (forall k :: 0 <= k < |key| ==> KeyChar(key[k])) && (at > 0 ==> RustSpace(line[at - 1]))
    ensures StandsAt(raw, a + at, key)
  {
    hide RustSpace, KeyChar;
    forall k | 0 <= k < |line| ensures raw[a + k] == line[k] { assert raw[a + k] == raw[a..a + |line|][k]; }
    forall k | 0 <= k < a + at ensures RustSpace(raw[k]) || KeyChar(raw[k]) {
      if k >= a { assert raw[k] == line[k - a]; }
    }
    if at > 0 { assert raw[a + at - 1] == line[at - 1]; }
    QuietStands(raw, a + at, key);
  }

  lemma ExportStarts(line: string)
    requires Exported(line)
    ensures |line| > 6 && !PySpace(line[0])
  {
  }

  lemma SameBeginning(raw: string, a: nat, line: string, b: nat, s: string)
    requires a + |line| <= |raw| && raw[a..a + |line|] == line && (forall k :: 0 <= k < a ==> RustSpace(raw[k]))
                 && line != "" && !PySpace(line[0])
    requires b + |s| <= |raw| && raw[b..b + |s|] == s && (forall k :: 0 <= k < b ==> PySpace(raw[k])) && s != ""
                 && !PySpace(s[0])
    ensures a == b
  {
  }

  lemma BlankGap(raw: string, a: nat, line: string, s: string, from: nat)
    requires a + |line| <= |raw| && raw[a..a + |line|] == line && a + |s| <= |raw| && raw[a..a + |s|] == s
    requires from <= |line| && from <= |s| && forall k :: 6 <= k < from ==> Blank(s[k])
    ensures forall k :: 6 <= k < from ==> Blank(line[k])
  {
    hide Blank;
    forall k | 6 <= k < from ensures Blank(line[k]) { assert line[k] == raw[a + k] == s[k]; }
  }

  /** A matched assignment has only blanks after its export. */
  lemma MatchedIsPlain(raw: string)
    requires ParseLine(raw).Assign? && AssignedKey(raw).Some?
    ensures PlainExport(raw)
  {
    hide *;
    var line, s := Strip(raw, RustSpace), Strip(raw, PySpace);
    if Exported(line) {
      var a := ParsedKeyPlace(raw);
      var b, at := MatchedKeyPlace(raw);
      OneKeyPlace(raw, a + (|line| - |AfterExport(line)|), ParseLine(raw).key, b + at, AssignedKey(raw).value);
      ExportStarts(line);
      SameBeginning(raw, a, line, b, s);
      BlankGap(raw, a, line, s, at);
    }
    PlainIf(raw, line);
  }

  lemma PlainIf(raw: string, line: string)
    requires line == Strip(raw, RustSpace)
    requires Exported(line) ==> forall k :: 6 <= k < |line| - |AfterExport(line)| ==> Blank(line[k])
    ensures PlainExport(raw)
  {
  }

  /** The key the renderers match on a line that parses: its own, if its export is plain. */
  lemma MatchedKey(raw: string)
    requires ParseLine(raw) != Bad
    ensures AssignedKey(raw) == if ParseLine(raw).Assign? && PlainExport(raw) then Some(ParseLine(raw).key) else None
  {
    hide *;
    if ParseLine(raw) == Skip {
      SkippedLineHasNoKey(raw);
    } else if PlainExport(raw) {
      AssignedLineHasItsKey(raw);
    } else if AssignedKey(raw).Some? {
      MatchedIsPlain(raw);
    }
  }

  /** Every line that assigns a managed key has only blanks after its export. */
  ghost predicate ManagedArePlain(plan: Plan, original: string) {
    forall i :: 0 <= i < |Chunks(original)| ==> ManagedIsPlain(plan, Chunks(original)[i])
  }

  ghost predicate ManagedIsPlain(plan: Plan, line: string) {
    ParseLine(line).Assign? && ParseLine(line).key in Keys(plan.managed) ==> PlainExport(line)
  }

  lemma NewlinePieces(s: string)
    requires OnlyNewlines(s) && s != ""
    ensures BreakAt(s) == IndexOf(s, '\n') && AfterBreak(s) == Cut(s)
  {
  }

  lemma {:induction false} PiecesAreChunks(s: string)
    requires OnlyNewlines(s)
    ensures SplitKeep(s) == Chunks(s)
    ensures forall i :: 0 <= i < |Chunks(s)| ==>
              OnlyNewlines(Chunks(s)[i]) && (i < |Chunks(s)| - 1 ==> EndsLine(Chunks(s)[i]))
    decreases |s|
  {
    hide Chunks, Cut, SplitKeep, OnlyNewlines, BreakAt, AfterBreak;
    if s == "" {
      NoChunks(s);
    } else {
      NewlinePieces(s);
      FirstChunk(s);
      Splitting(s);
      OnlyNewlinesAfter(s, Cut(s));
      OnlyNewlinesBefore(s, Cut(s));
      PiecesAreChunks(s[Cut(s)..]);
      if s[Cut(s)..] == "" { NoChunks(s[Cut(s)..]); }
    }
  }

  lemma OnlyNewlinesBefore(s: string, i: nat)
    requires OnlyNewlines(s) && i <= |s|
    ensures OnlyNewlines(s[..i])
  {
  }

  /** A chunk without inner line breaks is one piece. */
  lemma OnePiece(c: string)
    requires c != "" && OnlyNewlines(c) && '\n' !in c[..|c| - 1]
    ensures SplitKeep(c) == [c]
    ensures var l := c[..BreakAt(c)]; SplitLines(c) == [l] && (c == l || c == l + "\n")
  {
    hide *;
    PiecesAreChunks(c);
    ChunkAlone(c);
    BreakIsNewline(c);
    Splitting(c);
    NothingLeft(c[|c|..]);
    if BreakAt(c) < |c| { CutAt(c, BreakAt(c)); }
  }

  lemma FmOnePiece(plan: Plan, c: string)
    requires !plan.mlx && c != "" && SplitKeep(c) == [c]
    ensures FmText(plan, c) == (if Dropped(plan, c) then "" else c)
            && Block(plan, c) == if Dropped(plan, c) then [] else [c]
  {
    FmKeptOne(plan, c);
    hide FmKept, Concat, Dropped;
  }

  lemma MlxOnePiece(plan: Plan, c: string, l: string)
    requires plan.mlx && SplitLines(c) == [l]
    ensures Block(plan, c) == Keep(plan, l)
  {
    hide Keep;
    assert [l][..0] == [] && Kept(plan, []) == [];
  }

  /** A line that is neither kept as it is nor dropped becomes comments. */
  lemma KeptLineReads(plan: Plan, l: string)
    requires Valid(plan) && ParseLine(l) != Bad
    ensures Parsed(Keep(plan, l)) == if l == plan.header || ManagedKey(plan, l).Some? then Some(map[]) else Parsed([l])
    ensures Parsed([l]) == Some(if ParseLine(l).Assign? then map[ParseLine(l).key := ParseLine(l).value] else map[])
  {
    hide ParseLine, AssignedKey, PlainExport, Keys, DistinctKeys, ValidPairs, SecretsAreCleared, Clean;
    Disabled(plan, l);
    NothingParsed();
    assert [] + [l] == [l] && [] + [plan.notice] == [plan.notice]
           && [plan.notice] + ["# " + l] == [plan.notice, "# " + l];
  }

  /** Without inner line breaks, a line agrees exactly when its managed key, if it assigns one, is matched. */
  lemma KeptLineYields(plan: Plan, c: string, l: string, block: seq<string>)
    requires Valid(plan) && ParseLine(c) == ParseLine(l) != Bad && PlainExport(c) == PlainExport(l)
    requires Parsed(block) == if l == plan.header || ManagedKey(plan, l).Some? then Some(map[]) else Parsed([l])
    ensures Parsed(block).Some? && (Yields(plan, c, block) <==> ManagedIsPlain(plan, c))
  {
    hide ParseLine, AssignedKey, PlainExport, Keys, DistinctKeys, ValidPairs, SecretsAreCleared, Clean, Keep, Parsed;
    KeptLineReads(plan, l);
    MatchedKey(l);
    CommentLine(plan.header);
    if ParseLine(l).Assign? { OneEntry(ParseLine(l).key, ParseLine(l).value); }
  }

  lemma OneEntry(k: string, v: string)
    ensures map[k := v] != map[]
  {
    assert k in map[k := v];
  }

  lemma PlainIgnoresNewline(l: string)
    ensures PlainExport(l + "\n") == PlainExport(l)
  {
    StripRustNewline(l);
    hide Strip, Exported, AfterExport;
  }

  lemma {:induction false} TrimmedReads(lines: seq<string>)
    requires Parsed(lines).Some?
    ensures Parsed(Trimmed(lines)) == Parsed(lines)
  {
    hide ParseLine, Strip;
    if lines != [] && Strip(lines[|lines| - 1], PySpace) == "" {
      var n := |lines| - 1;
      BlankSkips(lines[n]);
      TrimmedReads(lines[..n]);
    }
  }

  lemma BlankSkips(l: string)
    requires Strip(l, PySpace) == ""
    ensures !ParseLine(l).Assign?
  {
  }

  lemma BlockYields(plan: Plan, c: string)
    requires Valid(plan) && ParseLine(c) != Bad && c != "" && OnlyNewlines(c) && '\n' !in c[..|c| - 1]
    ensures Parsed(Block(plan, c)).Some? && (Yields(plan, c, Block(plan, c)) <==> ManagedIsPlain(plan, c))
  {
    hide *;
    OnePiece(c);
    var l := c[..BreakAt(c)];
    NewlineIsIgnored(l);
    PlainIgnoresNewline(l);
    if plan.mlx {
      MlxOnePiece(plan, c, l);
      KeptLineReads(plan, l);
      KeptLineYields(plan, c, l, Block(plan, c));
    } else {
      FmOnePiece(plan, c);
      NothingParsed();
      EndsMakes(c, l);
      SameKey(plan, c, l);
      DroppedIs(plan, c);
      ParsedAlike([c], [l]);
      KeptLineYields(plan, c, l, Block(plan, c));
    }
  }

  lemma EndsMakes(c: string, l: string)
    requires Clean(l) && (c == l || c == l + "\n")
    ensures Ends(c, l)
  {
  }

  lemma DroppedIs(plan: Plan, c: string)
    ensures Dropped(plan, c) <==> ManagedKey(plan, c).Some? || Bare(c) == plan.header
  {
  }

  lemma YieldsTrimmed(plan: Plan, c: string, block: seq<string>)
    requires Parsed(block).Some?
    ensures Yields(plan, c, Trimmed(block)) <==> Yields(plan, c, block)
  {
    hide ParseLine, Own, Parsed;
    TrimmedReads(block);
  }

  lemma ParsedHasNoBad(lines: seq<string>, i: nat)
    requires Parsed(lines).Some? && i < |lines|
    ensures ParseLine(lines[i]) != Bad
  {
    hide ParseLine;
    ParsedSnoc(lines, i);
    if Parsed(lines[..i + 1]).None? { ParsedStays(lines, i + 1); }
  }

  lemma LeftYields(plan: Plan, original: string, i: nat)
    requires Valid(plan) && OnlyNewlines(original) && Parsed(Chunks(original)).Some? && i < |Chunks(original)|
    ensures Yields(plan, Chunks(original)[i], Left(plan, Chunks(original))[i]) <==>
              ManagedIsPlain(plan, Chunks(original)[i])
  {
    hide Valid, Yields, ManagedIsPlain, Block, Trimmed, OnlyNewlines, ParseLine, Parsed, Chunks;
    var c := Chunks(original)[i];
    PiecesAreChunks(original);
    ChunksAreLines(original);
    ParsedHasNoBad(Chunks(original), i);
    BlockYields(plan, c);
    YieldsTrimmed(plan, c, Block(plan, c));
  }

  lemma {:induction false} ParsedPiecesAreDistinct(plan: Plan, pieces: seq<string>)
    requires Parsed(pieces).Some?
    ensures Distinct(plan, pieces) && Seen(plan, pieces) <= Parsed(pieces).value.Keys
  {
    hide ParseLine, AssignedKey, Keys;
    if pieces != [] {
      var n := |pieces| - 1;
      ParsedPiecesAreDistinct(plan, pieces[..n]);
      if AssignedKey(pieces[n]).Some? { MatchedLineAssigns(pieces[n]); }
    }
  }

  lemma NewlinesNeverJoin(plan: Plan, original: string)
    requires !plan.mlx && OnlyNewlines(original)
    ensures NothingJoins(plan, Chunks(original))
  {
    hide FmText, OnlyNewlines, Chunks, Dropped;
    PiecesAreChunks(original);
    ChunksAreLines(original);
    forall i | 0 <= i < |Chunks(original)| - 1 ensures EndsLine(FmText(plan, Chunks(original)[i])) {
      OnePiece(Chunks(original)[i]);
      FmOnePiece(plan, Chunks(original)[i]);
    }
  }

  lemma NewlinesAreDistinct(plan: Plan, original: string)
    requires OnlyNewlines(original) && Parsed(Split(original)).Some?
    ensures Distinct(plan, Pieces(plan, original))
  {
    hide *;
    PiecesAre(plan, original);
    ChunksParse(original);
    if plan.mlx {
      SplitsAgree(original);
      EmptyLineSkips(SplitLines(original));
    } else {
      PiecesAreChunks(original);
    }
    ParsedPiecesAreDistinct(plan, Pieces(plan, original));
  }

  lemma PiecesAre(plan: Plan, original: string)
    ensures Pieces(plan, original) == if plan.mlx then SplitLines(original) else SplitKeep(original)
  {
  }

  /**
   Where newlines are the only line breaks, rendering a valid file succeeds, and the parser
   reads the original assignments overridden by the managed settings exactly when every
   managed key it assigns is set off from its export by blanks.
   */
  lemma NewlineFilesAgreeExactly(plan: Plan, original: string, m: Values)
    requires Valid(plan) && OnlyNewlines(original) && Parsed(Split(original)) == Some(m)
    ensures Rendered(plan, original).Some?
    ensures Parsed(Split(Rendered(plan, original).value)) == Some(m + Settings(plan.managed)) <==>
              ManagedArePlain(plan, original)
  {
    hide *;
    NewlinesAreDistinct(plan, original);
    if !plan.mlx { NewlinesNeverJoin(plan, original); }
    AgreesExactly(plan, original, m);
    ChunksParse(original);
    EachIsPlain(plan, original);
  }

  lemma EachIsPlain(plan: Plan, original: string)
    requires Valid(plan) && OnlyNewlines(original) && Parsed(Chunks(original)).Some?
    ensures EachLineAgrees(plan, original) <==> ManagedArePlain(plan, original)
  {
    hide Chunks, Yields, ManagedIsPlain, Trimmed, Block, Valid, Parsed, OnlyNewlines;
    forall i | 0 <= i < |Chunks(original)|
      ensures Yields(plan, Chunks(original)[i], Left(plan, Chunks(original))[i]) <==>
                ManagedIsPlain(plan, Chunks(original)[i]) {
      LeftYields(plan, original, i);
    }
  }

  // ---------------------------------------------------------------- the two cutovers

  lemma ReadsAs(text: string, m: Values)
    requires NoNul(text) && Utf8Length(text) <= MAX_ENV_BYTES
    requires Required(m)
    ensures EnvironmentValues(text) == Success(m) <==> Parsed(Split(text)) == Some(m)
  {
  }

  lemma ReadText(text: string)
    requires EnvironmentValues(text).Success?
    ensures Parsed(Split(text)) == Some(EnvironmentValues(text).value) && Required(EnvironmentValues(text).value)
            && NoNul(text)
  {
  }

  lemma Unreadable(text: string)
    requires Parsed(Split(text)).None?
    ensures EnvironmentValues(text) == Failure(Syntax)
  {
  }

  lemma CutoverSettings(mlx: bool, modelDir: string, cli: string, manifest: string, m: Values)
    requires Quotable(modelDir) && Quotable(cli) && Quotable(manifest) && Required(m)
    ensures var plan := CutoverPlan(mlx, modelDir, cli, manifest);
            Valid(plan) && plan.mlx == mlx && Required(m + Settings(plan.managed))
  {
    hide *;
    PlanIs(mlx, modelDir, cli, manifest);
    if mlx {
      MlxPlanIsValid(modelDir, cli, manifest);
      MlxSettings(modelDir, cli, manifest);
      RequiredCarriesOver(m, Settings(MlxPlan(modelDir, cli, manifest).managed));
      PlanKinds(modelDir, cli, manifest);
    } else {
      FmPlanIsValid(cli, manifest);
      FmSettings(cli, manifest);
      RequiredCarriesOver(m, Settings(FmPlan(cli, manifest).managed));
      PlanKinds(modelDir, cli, manifest);
    }
  }

  lemma PlanKinds(modelDir: string, cli: string, manifest: string)
    ensures MlxPlan(modelDir, cli, manifest).mlx && !FmPlan(cli, manifest).mlx
  {
  }

  /**
   For both programs' own keys and values: a valid environment is rendered exactly when no
   managed key is matched twice, and a result within the size cap reads as the original
   settings with the managed keys overridden exactly when each line agrees.
   */
  lemma CutoverReadsBackExactly(original: string, mlx: bool, modelDir: string, cli: string, manifest: string)
    requires Quotable(modelDir) && Quotable(cli) && Quotable(manifest) && EnvironmentValues(original).Success?
    requires !mlx ==> NothingJoins(CutoverPlan(mlx, modelDir, cli, manifest), Chunks(original))
    ensures var plan := CutoverPlan(mlx, modelDir, cli, manifest); var text := Rendered(plan, original);
            && (text.Some? <==> Distinct(plan, Pieces(plan, original)))
            && (text.Some? && Utf8Length(text.value) <= MAX_ENV_BYTES ==>
                  (EnvironmentValues(text.value) == Success(EnvironmentValues(original).value + Settings(plan.managed))
                   <==> EachLineAgrees(plan, original)))
  {
    hide *;
    var plan := CutoverPlan(mlx, modelDir, cli, manifest);
    var m := EnvironmentValues(original).value;
    ReadText(original);
    CutoverSettings(mlx, modelDir, cli, manifest, m);
    AgreesExactly(plan, original, m);
    var text := Rendered(plan, original);
    if text.Some? {
      RenderedNoNul(plan, original);
      if Utf8Length(text.value) <= MAX_ENV_BYTES { ReadsAs(text.value, m + Settings(plan.managed)); }
    }
  }
}
