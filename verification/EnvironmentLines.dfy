/**
 The lines of rendered files: what each renderer keeps, and that rendering settles.
 */
module EnvironmentLines {
  import opened Wrappers
  import opened Text
  import opened EnvironmentFile
  import opened EnvironmentRender

  // ---------------------------------------------------------------- lines and text

  ghost predicate AllClean(lines: seq<string>) {
    forall i :: 0 <= i < |lines| ==> Clean(lines[i])
  }

  lemma {:induction false} SplitLine(l: string, rest: string)
    requires '\n' !in l
    ensures Split(l + "\n" + rest) == [l] + Split(rest)
  {
    var s := l + "\n" + rest;
    if l == "" {
    } else {
      SplitLine(l[1..], rest);
      assert s[1..] == l[1..] + "\n" + rest;
      assert [l[0]] + l[1..] == l;
    }
  }

  lemma {:induction false} OneLineOnly(s: string)
    requires '\n' !in s
    ensures Split(s) == [s]
  {
    if s != "" {
      OneLineOnly(s[1..]);
      assert [s[0]] + s[1..] == s;
    }
  }

  lemma CleanHasNoNewline(l: string)
    requires Clean(l)
    ensures '\n' !in l
  {
  }

  lemma {:induction false} SplitUnlines(lines: seq<string>)
    requires AllClean(lines)
    ensures Split(Unlines(lines)) == lines + [""]
  {
    hide Clean;
    if lines != [] {
      CleanHasNoNewline(lines[0]);
      SplitLine(lines[0], Unlines(lines[1..]));
      SplitUnlines(lines[1..]);
    }
  }

  lemma BreakAfterClean(l: string, rest: string)
    requires Clean(l)
    ensures var s := l + "\n" + rest;
            && BreakAt(s) == |l| && AfterBreak(s) == |l| + 1 && s[..|l|] == l
            && s[|l| + 1..] == rest
  {
    var s := l + "\n" + rest;
    forall k | 0 <= k < |l| ensures !LineBreak(s[k]) { assert s[k] == l[k]; }
    assert s[|l|] == '\n';
  }

  lemma {:induction false} SplitLinesUnlines(lines: seq<string>)
    requires AllClean(lines)
    ensures SplitLines(Unlines(lines)) == lines
  {
    hide Clean, BreakAt, AfterBreak;
    if lines != [] {
      BreakAfterClean(lines[0], Unlines(lines[1..]));
      SplitLinesUnlines(lines[1..]);
    }
  }

  lemma BreakIsNewline(s: string)
    requires OnlyNewlines(s)
    ensures AfterBreak(s) == if BreakAt(s) < |s| then BreakAt(s) + 1 else |s|
    ensures BreakAt(s) < |s| ==> s[BreakAt(s)] == '\n'
  {
  }

  lemma CutAt(s: string, i: nat)
    requires i < |s| && s[i] == '\n'
    ensures s[..i + 1] == s[..i] + "\n" && s == s[..i] + "\n" + s[i + 1..]
  {
  }

  lemma OnlyNewlinesAfter(s: string, i: nat)
    requires OnlyNewlines(s) && i <= |s|
    ensures OnlyNewlines(s[i..])
  {
  }

  lemma CleanBefore(s: string)
    ensures '\n' !in s[..BreakAt(s)] && Clean(s[..BreakAt(s)])
  {
  }

  /** The first line of a text whose breaks are newlines. */
  lemma FirstLine(s: string)
    requires OnlyNewlines(s) && s != ""
    ensures AfterBreak(s) == if BreakAt(s) < |s| then BreakAt(s) + 1 else |s|
    ensures BreakAt(s) < |s| ==>
              s == s[..BreakAt(s)] + "\n" + s[AfterBreak(s)..] && s[..AfterBreak(s)] == s[..BreakAt(s)] + "\n"
    ensures '\n' !in s[..BreakAt(s)] && Clean(s[..BreakAt(s)]) && OnlyNewlines(s[AfterBreak(s)..])
  {
    hide AfterBreak, OnlyNewlines, Clean;
    BreakIsNewline(s);
    CleanBefore(s);
    OnlyNewlinesAfter(s, AfterBreak(s));
    if BreakAt(s) < |s| { CutAt(s, BreakAt(s)); }
  }

  lemma NothingLeft(s: string)
    requires s == ""
    ensures SplitLines(s) == []
  {
  }

  lemma Splitting(s: string)
    requires s != ""
    ensures SplitKeep(s) == [s[..AfterBreak(s)]] + SplitKeep(s[AfterBreak(s)..])
    ensures SplitLines(s) == [s[..BreakAt(s)]] + SplitLines(s[AfterBreak(s)..])
  {
  }

  lemma {:induction false} SplitsAgree(s: string)
    requires OnlyNewlines(s)
    ensures Split(s) == SplitLines(s) || Split(s) == SplitLines(s) + [""]
  {
    if s != "" {
      FirstLine(s);
      hide Clean, BreakAt, AfterBreak, OnlyNewlines;
      var l, rest := s[..BreakAt(s)], s[AfterBreak(s)..];
      SplitsAgree(rest);
      hide SplitLines, SplitKeep, Split;
      if BreakAt(s) < |s| {
        SplitLine(l, rest);
      } else {
        assert l == s && [l] + [] == [l];
        OneLineOnly(s);
      }
    }
  }

  lemma {:induction false} SplitLinesAreClean(s: string)
    ensures AllClean(SplitLines(s))
  {
    if s != "" {
      hide Clean, BreakAt, AfterBreak;
      SplitLinesAreClean(s[AfterBreak(s)..]);
    }
  }

  lemma {:induction false} UnlinesSnoc(lines: seq<string>, l: string)
    ensures Unlines(lines + [l]) == Unlines(lines) + l + "\n"
  {
    if lines == [] {
    } else {
      UnlinesSnoc(lines[1..], l);
      assert (lines + [l])[1..] == lines[1..] + [l];
    }
  }

  lemma {:induction false} UnlinesAppend(a: seq<string>, b: seq<string>)
    ensures Unlines(a + b) == Unlines(a) + Unlines(b)
  {
    if a == [] {
      assert a + b == b;
    } else {
      UnlinesAppend(a[1..], b);
      assert (a + b)[1..] == a[1..] + b;
    }
  }

  lemma {:induction false} JoinIsUnlines(lines: seq<string>)
    requires lines != []
    ensures Join(lines) + "\n" == Unlines(lines)
  {
    if |lines| == 1 {
    } else {
      JoinIsUnlines(lines[1..]);
    }
  }

  lemma MlxIsOutput(plan: Plan, original: string)
    requires plan.mlx
    ensures var lines := SplitLines(original);
            Rendered(plan, original) == if Distinct(plan, lines) then Some(Unlines(Output(plan, lines))) else None
  {
    hide Kept, Trimmed, Pairs, Distinct, SplitLines;
    var t, pairs := Trimmed(Kept(plan, SplitLines(original))), Pairs(plan.managed);
    JoinIsUnlines(t + ["", plan.header] + pairs);
    assert t + ["", plan.header] + pairs == (t + [""]) + ([plan.header] + pairs);
  }

  // ---------------------------------------------------------------- fm keeps the ends of lines

  ghost predicate Ends(piece: string, line: string) {
    Clean(line) && (piece == line || piece == line + "\n")
  }

  ghost predicate Matches(pieces: seq<string>, lines: seq<string>) {
    |pieces| == |lines| && forall i :: 0 <= i < |lines| ==> Ends(pieces[i], lines[i])
  }

  lemma {:induction false} TrimLeftBefore(l: string, c: char)
    requires PySpace(c)
    ensures TrimLeft(l + [c], PySpace) == (if TrimLeft(l, PySpace) == "" then "" else TrimLeft(l, PySpace) + [c])
  {
    if l != "" {
      assert (l + [c])[1..] == l[1..] + [c];
      if PySpace(l[0]) { TrimLeftBefore(l[1..], c); }
    }
  }

  lemma StripBefore(l: string, c: char)
    requires PySpace(c)
    ensures Strip(l + [c], PySpace) == Strip(l, PySpace)
  {
    TrimLeftBefore(l, c);
    hide PySpace, TrimLeft;
    var t := TrimLeft(l, PySpace);
  }

  lemma StripNewline(l: string)
    ensures Strip(l + "\n", PySpace) == Strip(l, PySpace)
  {
    assert PySpace('\n');
    hide PySpace, Strip;
    StripBefore(l, '\n');
  }

  lemma SameKey(plan: Plan, piece: string, line: string)
    requires Ends(piece, line)
    ensures ManagedKey(plan, piece) == ManagedKey(plan, line) && Bare(piece) == line
  {
    hide *;
    BareOf(piece, line);
    StripNewline(line);
    if piece != line { EndIsNewline(piece, line); }
    SameStrip(plan, piece, line);
  }

  lemma EndIsNewline(piece: string, line: string)
    requires Ends(piece, line) && piece != line
    ensures piece == line + "\n"
  {
  }

  lemma SameStrip(plan: Plan, piece: string, line: string)
    requires Strip(piece, PySpace) == Strip(line, PySpace)
    ensures ManagedKey(plan, piece) == ManagedKey(plan, line)
  {
    hide Strip, KeyAt, BlankRun, Keys;
  }

  lemma BareOf(piece: string, line: string)
    requires Ends(piece, line)
    ensures Bare(piece) == line
  {
    if piece != line { assert piece[..|piece| - 1] == line && piece[|piece| - 1] == '\n'; }
    if line != "" { assert !LineBreak(line[|line| - 1]); }
  }

  lemma {:induction false} SameKeys(plan: Plan, pieces: seq<string>, lines: seq<string>)
    requires Matches(pieces, lines)
    ensures Seen(plan, pieces) == Seen(plan, lines) && Distinct(plan, pieces) == Distinct(plan, lines)
  {
    hide Ends, ManagedKey;
    if lines != [] {
      var n := |lines| - 1;
      SameKeys(plan, pieces[..n], lines[..n]);
      SameKey(plan, pieces[n], lines[n]);
    }
  }

  ghost predicate Terminated(pieces: seq<string>, lines: seq<string>) {
    |pieces| == |lines| && forall i ::
      0 <= i < |pieces| ==> pieces[i] != "" && (i < |pieces| - 1 ==> pieces[i] == lines[i] + "\n")
  }

  lemma PieceInFront(piece: string, line: string, pieces: seq<string>, lines: seq<string>)
    requires Ends(piece, line) && Matches(pieces, lines) && Terminated(pieces, lines)
    requires piece != "" && (pieces != [] ==> piece == line + "\n")
    ensures Matches([piece] + pieces, [line] + lines) && Terminated([piece] + pieces, [line] + lines)
  {
  }

  lemma {:induction false} PiecesMatch(s: string)
    requires OnlyNewlines(s)
    ensures Matches(SplitKeep(s), SplitLines(s)) && Terminated(SplitKeep(s), SplitLines(s))
  {
    if s != "" {
      FirstLine(s);
      var i, k := BreakAt(s), AfterBreak(s);
      hide Clean, BreakAt, AfterBreak, OnlyNewlines, Matches, Terminated;
      Splitting(s);
      if i < |s| { PiecesMatch(s[k..]); } else { NoPieces(s[k..]); }
      PieceInFront(s[..k], s[..i], SplitKeep(s[k..]), SplitLines(s[k..]));
    } else {
      NoPieces(s);
    }
  }

  lemma NoPieces(s: string)
    requires s == ""
    ensures SplitKeep(s) == [] && SplitLines(s) == [] && Matches([], []) && Terminated([], [])
  {
  }

  /** Kept pieces that all end in a newline are the kept lines, each with its newline. */
  lemma {:induction false} KeptPieces(plan: Plan, pieces: seq<string>, lines: seq<string>)
    requires Valid(plan) && !plan.mlx && Matches(pieces, lines)
             && forall i :: 0 <= i < |pieces| ==> pieces[i] == lines[i] + "\n"
    ensures Concat(FmKept(plan, pieces)) == Unlines(Kept(plan, lines))
  {
    hide Clean, Ends, AssignedKey, Bare, Comment, ValidPairs, DistinctKeys, SecretsAreCleared;
    if lines != [] {
      var n := |lines| - 1;
      KeptPieces(plan, pieces[..n], lines[..n]);
      KeptPiece(plan, pieces[n], lines[n]);
      ConcatAppend(FmKept(plan, pieces[..n]), pieces[n]);
      UnlinesSnoc(Kept(plan, lines[..n]), lines[n]);
      NothingAdded(Kept(plan, lines[..n]));
      NothingAdded(FmKept(plan, pieces[..n]));
    }
  }

  lemma ConcatAppend(pieces: seq<string>, piece: string)
    ensures Concat(pieces + [piece]) == Concat(pieces) + piece
  {
  }

  lemma KeptPiece(plan: Plan, piece: string, line: string)
    requires Valid(plan) && !plan.mlx && Ends(piece, line)
    ensures Keep(plan, line) == if ManagedKey(plan, piece).Some? || Bare(piece) == plan.header then [] else [line]
  {
    hide Clean, Ends, AssignedKey, Bare;
    SameKey(plan, piece, line);
  }

  lemma {:induction false} UnlinesEnds(lines: seq<string>)
    ensures Finished(Unlines(lines)) == Unlines(lines)
  {
    if lines != [] {
      UnlinesEnds(lines[1..]);
    }
  }

  lemma FinishedPiece(content: string, piece: string, line: string)
    requires Ends(piece, line) && piece != ""
    ensures Finished(content + piece) == content + line + "\n"
  {
  }

  lemma FmContent(plan: Plan, original: string)
    requires Valid(plan) && !plan.mlx && OnlyNewlines(original)
    ensures Finished(Concat(FmKept(plan, SplitKeep(original)))) == Unlines(Kept(plan, SplitLines(original)))
  {
    PiecesMatch(original);
    hide Ends, AssignedKey, Bare, Valid, Finished, SplitKeep, SplitLines;
    var pieces, lines := SplitKeep(original), SplitLines(original);
    if lines == [] {
      UnlinesEnds([]);
    } else {
      var n := |lines| - 1;
      var before := Kept(plan, lines[..n]);
      KeptPieces(plan, pieces[..n], lines[..n]);
      KeptPiece(plan, pieces[n], lines[n]);
      FinishedPiece(Unlines(before), pieces[n], lines[n]);
      ConcatAppend(FmKept(plan, pieces[..n]), pieces[n]);
      UnlinesSnoc(before, lines[n]);
      UnlinesEnds(before);
      NothingAdded(before);
      NothingAdded(FmKept(plan, pieces[..n]));
    }
  }

  lemma FmIsOutput(plan: Plan, original: string)
    requires Valid(plan) && !plan.mlx && OnlyNewlines(original)
    ensures var lines := SplitLines(original);
            Rendered(plan, original) == if Distinct(plan, lines) then Some(Unlines(Output(plan, lines))) else None
  {
    PiecesMatch(original);
    hide FmKept, Kept, Pairs, Distinct, SplitLines, SplitKeep, Valid, Finished, Concat, Matches;
    SameKeys(plan, SplitKeep(original), SplitLines(original));
    FmContent(plan, original);
    UnlinesAppend(Kept(plan, SplitLines(original)), [plan.header] + Pairs(plan.managed));
    Regroup(Unlines(Kept(plan, SplitLines(original))), plan.header, Unlines(Pairs(plan.managed)));
  }

  lemma Regroup(a: string, b: string, c: string)
    ensures a + b + "\n" + c == a + (b + "\n" + c)
  {
  }

  // ---------------------------------------------------------------- the rendered text

  lemma PairIsClean(p: (string, string))
    requires ValidPair(p)
    ensures Clean(Pair(p))
  {
    EscapedIsLonger(p.1);
    forall i | 0 <= i < |p.0| ensures !LineBreak(p.0[i]) && p.0[i] != '\0' { assert KeyChar(p.0[i]); }
  }

  lemma CleanAppend(a: string, b: string)
    ensures Clean(a) && Clean(b) ==> Clean(a + b)
  {
  }

  lemma PairsAreClean(managed: seq<(string, string)>)
    requires ValidPairs(managed)
    ensures AllClean(Pairs(managed))
  {
    hide Clean, ValidPair, Pair;
    forall i | 0 <= i < |managed| ensures Clean(Pairs(managed)[i]) { PairIsClean(managed[i]); }
  }

  lemma AllCleanAppend(a: seq<string>, b: seq<string>)
    requires AllClean(a) && AllClean(b)
    ensures AllClean(a + b)
  {
  }

  lemma KeepIsClean(plan: Plan, line: string)
    requires Valid(plan) && Clean(line)
    ensures AllClean(Keep(plan, line))
  {
    CleanAppend("# ", line);
    hide ManagedKey, ActiveSecret;
  }

  lemma {:induction false} KeptIsClean(plan: Plan, lines: seq<string>)
    requires Valid(plan) && AllClean(lines)
    ensures AllClean(Kept(plan, lines))
  {
    hide Clean, Valid, Keep;
    if lines != [] {
      var n := |lines| - 1;
      KeptIsClean(plan, lines[..n]);
      KeepIsClean(plan, lines[n]);
    }
  }

  lemma OutputIsClean(plan: Plan, lines: seq<string>)
    requires Valid(plan) && AllClean(lines)
    ensures AllClean(Output(plan, lines))
  {
    KeptIsClean(plan, lines);
    PairsAreClean(plan.managed);
    hide Clean, Kept, Pairs, ValidPairs, DistinctKeys, SecretsAreCleared, Trimmed;
    AllCleanAppend([plan.header], Pairs(plan.managed));
  }

  lemma RenderedLines(plan: Plan, original: string)
    requires Valid(plan) && (plan.mlx || OnlyNewlines(original))
    ensures var lines := SplitLines(original);
            Rendered(plan, original) == if Distinct(plan, lines) then Some(Unlines(Output(plan, lines))) else None
    ensures AllClean(Output(plan, SplitLines(original)))
  {
    hide *;
    SplitLinesAreClean(original);
    OutputIsClean(plan, SplitLines(original));
    if plan.mlx { MlxIsOutput(plan, original); } else { FmIsOutput(plan, original); }
  }

  // ---------------------------------------------------------------- rendering twice

  /** Lines that rendering leaves alone. */
  ghost predicate Settled(plan: Plan, lines: seq<string>) {
    forall i :: 0 <= i < |lines| ==> Keep(plan, lines[i]) == [lines[i]]
  }

  lemma {:induction false} SettledStays(plan: Plan, lines: seq<string>)
    requires Settled(plan, lines)
    ensures Kept(plan, lines) == lines
  {
    hide Keep;
    if lines != [] {
      var n := |lines| - 1;
      SettledStays(plan, lines[..n]);
    }
  }

  lemma StripKeeps(line: string, c: char)
    requires c in Strip(line, PySpace)
    ensures c in line
  {
  }

  lemma KeyHasEquals(line: string)
    requires AssignedKey(line).Some?
    ensures '=' in line
  {
    StripKeeps(line, '=');
    hide Strip;
  }

  lemma KeepSettles(plan: Plan, line: string)
    requires Valid(plan)
    ensures Settled(plan, Keep(plan, line))
  {
    hide ParseLine, PlainExport, AssignedKey, Clean, Keys;
    Disabled(plan, line);
    if ManagedKey(plan, line).Some? {
      KeyHasEquals(line);
      assert '=' in "# " + line;
    }
  }

  lemma {:induction false} KeptSettles(plan: Plan, lines: seq<string>)
    requires Valid(plan)
    ensures Settled(plan, Kept(plan, lines))
  {
    hide Keep, Valid;
    if lines != [] {
      KeptSettles(plan, lines[..|lines| - 1]);
      KeepSettles(plan, lines[|lines| - 1]);
    }
  }

  lemma BlankSettles(plan: Plan, t: seq<string>, kept: seq<string>)
    requires Valid(plan) && Settled(plan, kept) && |t| <= |kept| && t == kept[..|t|]
    ensures Settled(plan, t + [""])
  {
  }

  lemma BodySettles(plan: Plan, kept: seq<string>)
    requires Valid(plan) && Settled(plan, kept)
    ensures Settled(plan, Body(plan, kept)) && Body(plan, Body(plan, kept)) == Body(plan, kept)
  {
    hide Valid, Settled, Trimmed;
    if plan.mlx {
      BlankSettles(plan, Trimmed(kept), kept);
      TrimmedTwice(kept);
      BlankTrimmed(Trimmed(kept));
    }
  }

  lemma {:induction false} TrimmedTwice(lines: seq<string>)
    ensures Trimmed(Trimmed(lines)) == Trimmed(lines)
  {
    hide Strip;
    if lines != [] && Strip(lines[|lines| - 1], PySpace) == "" { TrimmedTwice(lines[..|lines| - 1]); }
  }

  lemma BlankTrimmed(lines: seq<string>)
    ensures Trimmed(lines + [""]) == Trimmed(lines)
  {
  }

  lemma PriorOfPair(p: (string, string))
    requires ValidPair(p) && p.1 == ""
    ensures Prior(Pair(p)) == "''"
  {
    hide Assignment, Quote, Strip, PySpace, Exported, RustSpace;
    assert Pair(p) == Assignment(p.0, Quote(p.1)) by { PairIsAssignment(p); }
    EmptyQuote();
    QuoteEnds("");
    AssignmentBody(p.0, Quote(""));
    AssignmentShape(p.0, Quote(""));
    NothingToStrip(Quote(""), PySpace);
  }

  lemma PairIsAssignment(p: (string, string))
    ensures Pair(p) == Assignment(p.0, Quote(p.1))
  {
  }

  lemma EmptyQuote()
    ensures Quote("") == "''"
  {
  }

  lemma PairIsManaged(plan: Plan, i: nat)
    requires Valid(plan) && i < |plan.managed|
    ensures ManagedKey(plan, Pair(plan.managed[i])) == Some(plan.managed[i].0)
  {
    hide Pair, ParseLine, PlainExport, AssignedKey, Comment, DistinctKeys, SecretsAreCleared;
    PairParses(plan.managed[i]);
  }

  lemma PairIsDropped(plan: Plan, i: nat)
    requires Valid(plan) && i < |plan.managed|
    ensures Keep(plan, Pair(plan.managed[i])) == []
  {
    PairIsManaged(plan, i);
    if plan.managed[i].0 in plan.secrets { SecretPair(plan, i); }
    hide Pair, ManagedKey, Valid, Prior;
  }

  lemma SecretPair(plan: Plan, i: nat)
    requires Valid(plan) && i < |plan.managed| && plan.managed[i].0 in plan.secrets
    ensures Prior(Pair(plan.managed[i])) == "''"
  {
    hide Pair, Comment, DistinctKeys, Prior, ValidPair;
    PriorOfPair(plan.managed[i]);
  }

  /** The appended lines are dropped again, and assign each managed key once. */
  lemma {:induction false} AppendedLines(plan: Plan, before: seq<string>, n: nat)
    requires Valid(plan) && Settled(plan, before) && n <= |plan.managed|
    ensures var lines := before + ([plan.header] + Pairs(plan.managed[..n]));
            Kept(plan, lines) == before && Distinct(plan, lines) && Seen(plan, lines) == Keys(plan.managed[..n])
  {
    hide *;
    var front := before + [plan.header];
    if n == 0 {
      NoPairs([plan.header], plan.managed[..0]);
      HeaderDropped(plan, before);
    } else {
      var p := plan.managed[n - 1];
      AppendedLines(plan, before, n - 1);
      assert plan.managed[..n][..n - 1] == plan.managed[..n - 1];
      KeysAreDistinct(plan);
      FirstKeys(plan.managed, n);
      PairsSnoc(plan.managed[..n]);
      var lines := before + ([plan.header] + Pairs(plan.managed[..n - 1]));
      assert before + ([plan.header] + Pairs(plan.managed[..n])) == lines + [Pair(p)];
      PairIsManaged(plan, n - 1);
      PairIsDropped(plan, n - 1);
      OneMore(plan, lines, Pair(p));
    }
  }

  lemma KeysAreDistinct(plan: Plan)
    requires Valid(plan)
    ensures DistinctKeys(plan.managed)
  {
  }

  lemma OneMore(plan: Plan, lines: seq<string>, line: string)
    requires Keep(plan, line) == [] && Distinct(plan, lines)
    requires ManagedKey(plan, line).Some? && ManagedKey(plan, line).value !in Seen(plan, lines)
    ensures Kept(plan, lines + [line]) == Kept(plan, lines) && Distinct(plan, lines + [line])
    ensures Seen(plan, lines + [line]) == Seen(plan, lines) + {ManagedKey(plan, line).value}
  {
  }

  lemma FirstKeys(managed: seq<(string, string)>, n: nat)
    requires 0 < n <= |managed| && DistinctKeys(managed)
    ensures Keys(managed[..n]) == Keys(managed[..n - 1]) + {managed[n - 1].0}
            && managed[n - 1].0 !in Keys(managed[..n - 1])
  {
  }

  lemma HeaderDropped(plan: Plan, before: seq<string>)
    requires Valid(plan) && Settled(plan, before)
    ensures var lines := before + [plan.header];
            && Kept(plan, lines) == before && Distinct(plan, lines)
            && Seen(plan, lines) == {}
  {
    SettledStays(plan, before);
    SettledSeesNothing(plan, before);
    CommentLine(plan.header);
    hide AssignedKey, ParseLine, PlainExport, Settled, Comment;
    assert (before + [plan.header])[..|before|] == before;
    NothingAdded(before);
  }

  lemma {:induction false} SettledSeesNothing(plan: Plan, lines: seq<string>)
    requires Settled(plan, lines)
    ensures Seen(plan, lines) == {} && Distinct(plan, lines)
  {
    hide ManagedKey, ActiveSecret;
    if lines != [] {
      SettledSeesNothing(plan, lines[..|lines| - 1]);
    }
  }

  lemma OutputAgain(plan: Plan, lines: seq<string>, body: seq<string>)
    requires Valid(plan) && body == Body(plan, Kept(plan, lines)) && Settled(plan, body) && Body(plan, body) == body
    ensures Distinct(plan, Output(plan, lines)) && Output(plan, Output(plan, lines)) == Output(plan, lines)
  {
    hide Kept, Body, Pairs, Distinct, Valid, Settled;
    AppendedLines(plan, body, |plan.managed|);
    assert plan.managed[..|plan.managed|] == plan.managed;
  }

  // ---------------------------------------------------------------- what fm keeps of a text

  /** What fm keeps of a text. */
  function FmText(plan: Plan, s: string): string {
    Concat(FmKept(plan, SplitKeep(s)))
  }

  predicate EndsLine(s: string) {
    s == "" || s[|s| - 1] == '\n'
  }

  /** Whether fm drops a piece. */
  predicate Dropped(plan: Plan, piece: string) {
    ManagedKey(plan, piece).Some? || Bare(piece) == plan.header
  }

  lemma {:induction false} KeptAppend(plan: Plan, a: seq<string>, b: seq<string>)
    ensures Kept(plan, a + b) == Kept(plan, a) + Kept(plan, b)
  {
    hide Keep;
    if b == [] {
      NothingAdded(a);
    } else {
      var n := |b| - 1;
      KeptAppend(plan, a, b[..n]);
      assert (a + b)[..|a + b| - 1] == a + b[..n];
    }
  }

  lemma {:induction false} FmKeptAppend(plan: Plan, a: seq<string>, b: seq<string>)
    ensures FmKept(plan, a + b) == FmKept(plan, a) + FmKept(plan, b)
  {
    hide ManagedKey, Bare;
    if b == [] {
      NothingAdded(a);
    } else {
      var n := |b| - 1;
      FmKeptAppend(plan, a, b[..n]);
      assert (a + b)[..|a + b| - 1] == a + b[..n];
      Associate(FmKept(plan, a), FmKept(plan, b[..n]), if ManagedKey(plan, b[n]).Some? || Bare(b[n]) == plan.header then
                                                         []
                                                       else [b[n]]);
    }
  }

  lemma {:induction false} ConcatBoth(a: seq<string>, b: seq<string>)
    ensures Concat(a + b) == Concat(a) + Concat(b)
  {
    if b == [] {
      NothingAdded(a);
    } else {
      var n := |b| - 1;
      ConcatBoth(a, b[..n]);
      assert (a + b)[..|a + b| - 1] == a + b[..n];
    }
  }

  lemma FmKeptOne(plan: Plan, p: string)
    ensures FmKept(plan, [p]) == (if Dropped(plan, p) then [] else [p])
            && Concat(FmKept(plan, [p])) == if Dropped(plan, p) then "" else p
  {
  }

  lemma FmTextCons(plan: Plan, s: string)
    requires s != ""
    ensures var c := AfterBreak(s);
            FmText(plan, s) ==
              (if Dropped(plan, s[..c]) then "" else s[..c]) + FmText(plan, s[c..])
  {
    hide ManagedKey, Bare, BreakAt, AfterBreak;
    Splitting(s);
    var p, rest := s[..AfterBreak(s)], SplitKeep(s[AfterBreak(s)..]);
    FmKeptAppend(plan, [p], rest);
    FmKeptOne(plan, p);
    ConcatBoth(FmKept(plan, [p]), FmKept(plan, rest));
  }

  lemma BareIsPrefix(p: string)
    ensures Bare(p) <= p
  {
  }

  lemma AfterBreakIs(s: string)
    ensures AfterBreak(s) <= BreakAt(s) + 2
    ensures AfterBreak(s) == BreakAt(s) + 2 ==> s[BreakAt(s) + 1] == '\n'
    ensures BreakAt(s) < |s| ==> BreakAt(s) < AfterBreak(s)
  {
  }


  /** Rendering drops no piece of the text. */
  ghost predicate KeepsAll(plan: Plan, s: string) {
    forall i :: 0 <= i < |SplitKeep(s)| ==> !Dropped(plan, SplitKeep(s)[i])
  }

  lemma KeepsAllCons(plan: Plan, s: string)
    requires s != ""
    ensures KeepsAll(plan, s) <==> !Dropped(plan, s[..AfterBreak(s)]) && KeepsAll(plan, s[AfterBreak(s)..])
  {
    hide Dropped, BreakAt, AfterBreak;
    Splitting(s);
    var p, rest := s[..AfterBreak(s)], SplitKeep(s[AfterBreak(s)..]);
    assert forall i :: 0 <= i < |rest| ==> ([p] + rest)[i + 1] == rest[i];
    assert ([p] + rest)[0] == p;
  }

  lemma NothingKept(plan: Plan, s: string)
    requires s == ""
    ensures FmText(plan, s) == ""
  {
  }

  lemma {:induction false} AllIsKept(plan: Plan, s: string)
    requires KeepsAll(plan, s)
    ensures FmText(plan, s) == s
  {
    hide Dropped, KeepsAll, BreakAt, AfterBreak, FmText;
    if s == "" {
      NothingKept(plan, s);
    } else {
      KeepsAllCons(plan, s);
      FmTextCons(plan, s);
      AllIsKept(plan, s[AfterBreak(s)..]);
    }
  }

  /** A newline after a piece changes nothing the renderer looks at. */
  lemma DroppedWithNewline(plan: Plan, p: string)
    ensures Dropped(plan, p + "\n") == Dropped(plan, p)
  {
    StripNewline(p);
    hide Strip;
    SameStrip(plan, p + "\n", p);
    hide ManagedKey;
  }

  /** A first piece put before a text: it stays a piece, or takes the newline that follows. */
  lemma FrontPiece(p: string, s: string)
    requires p != "" && AfterBreak(p) == |p| && (BreakAt(p) < |p| || s == "" || s[0] == '\n')
    ensures AfterBreak(p + s) == |p| || (s != "" && s[0] == '\n' && AfterBreak(p + s) == |p| + 1)
  {
    var t, b := p + s, BreakAt(p);
    forall k | 0 <= k < b ensures t[k] == p[k] {}
    if b < |p| {
      assert t[b] == p[b];
      BreakIs(t, b);
    } else if s != "" {
      assert t[b] == '\n';
      BreakIs(t, b);
    } else {
      assert t == p;
    }
  }

  lemma BreakIs(s: string, b: nat)
    requires b < |s| && LineBreak(s[b]) && forall k :: 0 <= k < b ==> !LineBreak(s[k])
    ensures BreakAt(s) == b
    ensures AfterBreak(s) == if s[b] == '\r' && b + 1 < |s| && s[b + 1] == '\n' then b + 2 else b + 1
  {
  }

  lemma NewlineFirst(s: string)
    requires s != "" && s[0] == '\n'
    ensures AfterBreak(s) == 1
  {
  }

  lemma FrontPieceIsKept(plan: Plan, p: string, s: string)
    requires p != "" && AfterBreak(p) == |p| && (BreakAt(p) < |p| || s == "" || s[0] == '\n')
    requires !Dropped(plan, p) && KeepsAll(plan, s)
    ensures KeepsAll(plan, p + s)
  {
    hide Dropped, KeepsAll, BreakAt, AfterBreak, LineBreak;
    FrontPiece(p, s);
    var t := p + s;
    KeepsAllCons(plan, t);
    if AfterBreak(t) == |p| {
      assert t[..|p|] == p && t[|p|..] == s;
    } else {
      KeepsAllCons(plan, s);
      NewlineFirst(s);
      assert t[..|p| + 1] == p + "\n" && t[|p| + 1..] == s[1..];
      DroppedWithNewline(plan, p);
    }
  }

  lemma FirstPieceIsAPiece(s: string)
    requires s != ""
    ensures var p := s[..AfterBreak(s)]; p != "" && AfterBreak(p) == |p| && (BreakAt(p) < |p| || AfterBreak(s) == |s|)
  {
  }

  /** What fm keeps of a text, with or without a newline after it, it keeps again. */
  lemma {:induction false} KeptTextIsKept(plan: Plan, s: string, tail: string)
    requires Valid(plan) && (tail == "" || tail == "\n")
    ensures KeepsAll(plan, FmText(plan, s) + tail)
    decreases |s|
  {
    hide Valid, Dropped, KeepsAll, BreakAt, AfterBreak, FmText;
    if s == "" {
      TailIsKept(plan, s, tail);
    } else {
      FmTextCons(plan, s);
      var p, rest := s[..AfterBreak(s)], s[AfterBreak(s)..];
      KeptTextIsKept(plan, rest, tail);
      if !Dropped(plan, p) {
        FirstPieceIsAPiece(s);
        if rest == "" { TailIsKept(plan, rest, tail); }
        FrontPieceIsKept(plan, p, FmText(plan, rest) + tail);
        assert p + (FmText(plan, rest) + tail) == FmText(plan, s) + tail;
      } else {
        assert FmText(plan, s) == FmText(plan, rest);
      }
    }
  }

  lemma TailIsKept(plan: Plan, s: string, tail: string)
    requires Valid(plan) && s == "" && (tail == "" || tail == "\n")
    ensures FmText(plan, s) == "" && KeepsAll(plan, FmText(plan, s) + tail) && FmText(plan, s) + tail == tail
  {
    hide ValidPairs, DistinctKeys, SecretsAreCleared, Keys;
    assert FmText(plan, s) + tail == tail;
    if tail == "\n" {
      NoPieces(tail[1..]);
      hide Dropped;
    }
  }

  // ---------------------------------------------------------------- unmanaged lines

  function Unmanaged(plan: Plan, lines: seq<string>): seq<string> {
    if lines == [] then []
    else
      var last := lines[|lines| - 1];
      Unmanaged(plan, lines[..|lines| - 1]) +
        (if last != plan.header && ManagedKey(plan, last).None? then [last] else [])
  }

  ghost predicate Subsequence(a: seq<string>, b: seq<string>)
    decreases |b|
  {
    a == [] || (b != [] && (Subsequence(a, b[..|b| - 1])
                            || (a[|a| - 1] == b[|b| - 1] && Subsequence(a[..|a| - 1], b[..|b| - 1]))))
  }

  lemma {:induction false} SubsequenceGrows(a: seq<string>, b: seq<string>, more: seq<string>)
    requires Subsequence(a, b)
    ensures Subsequence(a, b + more)
  {
    if more == [] {
      NothingAdded(b);
    } else {
      SubsequenceGrows(a, b, more[..|more| - 1]);
      assert (b + more)[..|b + more| - 1] == b + more[..|more| - 1];
    }
  }

  lemma SubsequenceBoth(a: seq<string>, b: seq<string>, line: string)
    requires Subsequence(a, b)
    ensures Subsequence(a + [line], b + [line])
  {
  }

  lemma {:induction false} KeptHoldsUnmanaged(plan: Plan, lines: seq<string>)
    ensures Subsequence(Unmanaged(plan, lines), Kept(plan, lines))
    ensures (forall i :: 0 <= i < |lines| ==> !ActiveSecret(plan, lines[i]) || lines[i] == plan.header) ==>
              Kept(plan, lines) == Unmanaged(plan, lines)
  {
    hide ManagedKey, ActiveSecret, Subsequence;
    if lines == [] {
      NoSubsequence();
    } else {
      var before, last := lines[..|lines| - 1], lines[|lines| - 1];
      KeptHoldsUnmanaged(plan, before);
      NothingAdded(Unmanaged(plan, before));
      if last != plan.header && ManagedKey(plan, last).None? {
        SubsequenceBoth(Unmanaged(plan, before), Kept(plan, before), last);
      } else {
        SubsequenceGrows(Unmanaged(plan, before), Kept(plan, before), Keep(plan, last));
      }
    }
  }

  lemma NoSubsequence()
    ensures Subsequence([], [])
  {
  }

  /** No line of the list is an active secret. */
  ghost predicate NoActiveSecret(plan: Plan, lines: seq<string>) {
    forall i :: 0 <= i < |lines| ==> !ActiveSecret(plan, lines[i]) || lines[i] == plan.header
  }

  /** Unmanaged lines, without the blank ones mlx drops from the end. */
  function Lasting(plan: Plan, lines: seq<string>): seq<string> {
    if plan.mlx then Trimmed(Unmanaged(plan, lines)) else Unmanaged(plan, lines)
  }

  lemma {:induction false} TrimmedSubsequence(a: seq<string>, b: seq<string>)
    requires Subsequence(a, b)
    ensures Subsequence(Trimmed(a), Trimmed(b))
    decreases |a| + |b|
  {
    hide Strip;
    if a == [] || Trimmed(a) == [] {
    } else {
      var n := |b| - 1;
      if Strip(a[|a| - 1], PySpace) == "" {
        LastIsDropped(a, b);
        TrimmedSubsequence(a[..|a| - 1], b);
      } else if Strip(b[n], PySpace) == "" {
        TrimmedSubsequence(a, b[..n]);
      }
    }
  }

  lemma {:induction false} LastIsDropped(a: seq<string>, b: seq<string>)
    requires a != [] && Subsequence(a, b)
    ensures Subsequence(a[..|a| - 1], b)
    decreases |b|
  {
    var n := |b| - 1;
    if Subsequence(a, b[..n]) {
      LastIsDropped(a, b[..n]);
    }
  }

  // ---------------------------------------------------------------- rendering a rendered file

  lemma AppendedBreak(a: string, b: string)
    requires a != "" && EndsLine(a)
    ensures BreakAt(a + b) == BreakAt(a) < |a| && AfterBreak(a + b) == AfterBreak(a)
    ensures (a + b)[AfterBreak(a)..] == a[AfterBreak(a)..] + b && EndsLine(a[AfterBreak(a)..])
  {
    var t, k := a + b, BreakAt(a);
    forall j | 0 <= j < |a| ensures t[j] == a[j] {}
    hide LineBreak;
  }

  lemma SameFronts(a: string, b: string, n: nat)
    requires n <= |a|
    ensures (a + b)[..n] == a[..n]
  {
  }

  lemma {:induction false} PiecesAppend(a: string, b: string)
    requires EndsLine(a)
    ensures SplitKeep(a + b) == SplitKeep(a) + SplitKeep(b) && SplitLines(a + b) == SplitLines(a) + SplitLines(b)
    decreases |a|
  {
    hide *;
    if a == "" {
      assert a + b == b;
      NoPieces(a);
    } else {
      AppendedBreak(a, b);
      var k, c := BreakAt(a), AfterBreak(a);
      PiecesAppend(a[c..], b);
      Splitting(a);
      Splitting(a + b);
      SameFronts(a, b, c);
      SameFronts(a, b, k);
    }
  }

  lemma FmTextAppend(plan: Plan, a: string, b: string)
    requires EndsLine(a)
    ensures FmText(plan, a + b) == FmText(plan, a) + FmText(plan, b)
  {
    hide FmKept, Concat, SplitKeep, EndsLine;
    PiecesAppend(a, b);
    FmKeptAppend(plan, SplitKeep(a), SplitKeep(b));
    ConcatBoth(FmKept(plan, SplitKeep(a)), FmKept(plan, SplitKeep(b)));
  }

  lemma {:induction false} UnlinesPieces(lines: seq<string>)
    requires AllClean(lines)
    ensures Matches(SplitKeep(Unlines(lines)), lines)
    ensures var p := SplitKeep(Unlines(lines)); forall i :: 0 <= i < |p| ==> p[i] == lines[i] + "\n"
  {
    if lines == [] {
    } else {
      BreakAfterClean(lines[0], Unlines(lines[1..]));
      UnlinesPieces(lines[1..]);
      hide Clean, BreakAt, AfterBreak, SplitKeep;
    }
  }

  lemma {:induction false} DistinctAfter(plan: Plan, a: seq<string>, b: seq<string>)
    requires forall i :: 0 <= i < |a| ==> ManagedKey(plan, a[i]).None?
    ensures Distinct(plan, a + b) == Distinct(plan, b) && Seen(plan, a + b) == Seen(plan, b)
  {
    hide ManagedKey;
    if b != [] {
      var n := |b| - 1;
      DistinctAfter(plan, a, b[..n]);
      assert (a + b)[..|a + b| - 1] == a + b[..n];
    } else {
      assert a + b == a;
      NothingSeen(plan, a);
    }
  }

  lemma {:induction false} NothingSeen(plan: Plan, a: seq<string>)
    requires forall i :: 0 <= i < |a| ==> ManagedKey(plan, a[i]).None?
    ensures Distinct(plan, a) && Seen(plan, a) == {}
  {
    hide ManagedKey;
    if a != [] { NothingSeen(plan, a[..|a| - 1]); }
  }

  /** What fm appends it drops again, without meeting a key twice. */
  lemma FmTail(plan: Plan)
    requires Valid(plan) && !plan.mlx
    ensures var tail := Unlines([plan.header] + Pairs(plan.managed));
            FmText(plan, tail) == "" && Distinct(plan, SplitKeep(tail))
  {
    var lines := [plan.header] + Pairs(plan.managed);
    TailIsClean(plan);
    hide *;
    UnlinesPieces(lines);
    AppendedLines(plan, [], |plan.managed|);
    WholeTail(plan);
    KeptPieces(plan, SplitKeep(Unlines(lines)), lines);
    SameKeys(plan, SplitKeep(Unlines(lines)), lines);
  }

  lemma WholeTail(plan: Plan)
    ensures [] + ([plan.header] + Pairs(plan.managed[..|plan.managed|])) == [plan.header] + Pairs(plan.managed)
  {
  }

  lemma TextOfPieces(plan: Plan, s: string)
    ensures FmText(plan, s) == Concat(FmKept(plan, SplitKeep(s)))
  {
  }

  lemma TailIsClean(plan: Plan)
    requires Valid(plan)
    ensures AllClean([plan.header] + Pairs(plan.managed))
  {
    PairsAreClean(plan.managed);
    hide Clean, Pairs, ValidPairs, DistinctKeys, SecretsAreCleared;
  }

  /** The rendered fm text: what is kept, finished, and the appended lines. */
  lemma FmRenderedIs(plan: Plan, original: string)
    requires !plan.mlx
    ensures Rendered(plan, original) ==
            if Distinct(plan, SplitKeep(original)) then
                 Some(Finished(FmText(plan, original)) + Unlines([plan.header] + Pairs(plan.managed)))
            else None
  {
    hide FmKept, Concat, Pairs, Distinct, SplitKeep, Finished;
    Regroup(Finished(FmText(plan, original)), plan.header, Unlines(Pairs(plan.managed)));
  }

  lemma FinishedIsKept(plan: Plan, original: string)
    requires Valid(plan)
    ensures var content := Finished(FmText(plan, original));
            && KeepsAll(plan, content) && EndsLine(content)
            && Finished(content) == content
  {
    KeptTextIsKept(plan, original, "");
    KeptTextIsKept(plan, original, "\n");
    hide KeepsAll, FmText;
    assert FmText(plan, original) + "" == FmText(plan, original);
  }

  lemma KeptPiecesAreUnmanaged(plan: Plan, s: string)
    requires KeepsAll(plan, s)
    ensures forall i :: 0 <= i < |SplitKeep(s)| ==> ManagedKey(plan, SplitKeep(s)[i]).None?
  {
  }

  lemma FmIsIdempotent(plan: Plan, original: string)
    requires Valid(plan) && !plan.mlx && Rendered(plan, original).Some?
    ensures Rendered(plan, Rendered(plan, original).value) == Rendered(plan, original)
  {
    hide *;
    var content, tail := Finished(FmText(plan, original)), Unlines([plan.header] + Pairs(plan.managed));
    FmRenderedIs(plan, original);
    FinishedIsKept(plan, original);
    AllIsKept(plan, content);
    FmTail(plan);
    FmTextAppend(plan, content, tail);
    PiecesAppend(content, tail);
    KeptPiecesAreUnmanaged(plan, content);
    DistinctAfter(plan, SplitKeep(content), SplitKeep(tail));
    FmRenderedIs(plan, content + tail);
    assert content + "" == content;
  }

  lemma MlxIsIdempotent(plan: Plan, original: string)
    requires Valid(plan) && plan.mlx && Rendered(plan, original).Some?
    ensures Rendered(plan, Rendered(plan, original).value) == Rendered(plan, original)
  {
    RenderedLines(plan, original);
    hide *;
    var lines := SplitLines(original);
    var out := Output(plan, lines);
    SplitLinesUnlines(out);
    RenderedLines(plan, Unlines(out));
    KeptSettles(plan, lines);
    BodySettles(plan, Kept(plan, lines));
    OutputAgain(plan, lines, Body(plan, Kept(plan, lines)));
  }

  /** Rendering the rendered file again changes nothing, whatever line breaks the original has. */
  lemma RenderingIsIdempotent(plan: Plan, original: string)
    requires Valid(plan) && Rendered(plan, original).Some?
    ensures Rendered(plan, Rendered(plan, original).value) == Rendered(plan, original)
  {
    hide *;
    if plan.mlx { MlxIsIdempotent(plan, original); } else { FmIsIdempotent(plan, original); }
  }

  // ---------------------------------------------------------------- unmanaged lines of the rendered file

  lemma {:induction false} SubsequenceInFront(x: string, a: seq<string>, b: seq<string>)
    requires Subsequence(a, b)
    ensures Subsequence(a, [x] + b) && Subsequence([x] + a, [x] + b)
    decreases |b|
  {
    if b != [] {
      var n := |b| - 1;
      assert ([x] + b)[..n + 1] == [x] + b[..n];
      if a != [] && !Subsequence(a, b[..n]) {
        assert ([x] + a)[..|a|] == [x] + a[..|a| - 1];
        SubsequenceInFront(x, a[..|a| - 1], b[..n]);
      } else {
        SubsequenceInFront(x, a, b[..n]);
      }
    }
  }

  lemma {:induction false} UnmanagedCons(plan: Plan, l: string, rest: seq<string>)
    ensures Unmanaged(plan, [l] + rest) ==
              (if l != plan.header && ManagedKey(plan, l).None? then [l] else []) + Unmanaged(plan, rest)
  {
    hide ManagedKey;
    if rest == [] {
      assert [l] + rest == [l] && [l][..0] == [];
    } else {
      var n := |rest| - 1;
      UnmanagedCons(plan, l, rest[..n]);
      assert ([l] + rest)[..n + 1] == [l] + rest[..n];
    }
  }

  /** No carriage return that fm keeps comes to stand before a newline that did not follow it. */
  ghost predicate ReturnsStay(plan: Plan, s: string)
    decreases |s|
  {
    s == "" ||
    (var p, rest := s[..AfterBreak(s)], s[AfterBreak(s)..];
     && (Dropped(plan, p) || p[|p| - 1] != '\r' || FmText(plan, rest) == "" || FmText(plan, rest)[0] != '\n')
     && ReturnsStay(plan, rest))
  }

  /** A line and its break. */
  ghost predicate Broken(l: string, p: string) {
    p == l + "\r\n" || exists c :: LineBreak(c) && p == l + [c]
  }

  lemma AfterBreakAt(s: string)
    ensures var b := BreakAt(s);
            b < |s| ==> AfterBreak(s) == if s[b] == '\r' && b + 1 < |s| && s[b + 1] == '\n' then b + 2 else b + 1
    ensures BreakAt(s) == |s| ==> AfterBreak(s) == |s|
  {
  }

  /** The first piece of a text and its line. */
  lemma FirstPieceAndLine(s: string)
    requires s != ""
    ensures var l, p := s[..BreakAt(s)], s[..AfterBreak(s)];
            Clean(l) && ((p == l && AfterBreak(s) == |s|) || Broken(l, p))
  {
    hide BreakAt, AfterBreak, LineBreak, Clean, Broken;
    CleanBefore(s);
    AfterBreakAt(s);
    if BreakAt(s) < |s| { BrokenAt(s, BreakAt(s)); }
  }

  lemma BrokenAt(s: string, b: nat)
    requires b < |s| && LineBreak(s[b])
    ensures Broken(s[..b], s[..b + 1])
    ensures b + 1 < |s| && s[b] == '\r' && s[b + 1] == '\n' ==> Broken(s[..b], s[..b + 2])
  {
    assert s[..b + 1] == s[..b] + [s[b]];
    if b + 1 < |s| && s[b] == '\r' && s[b + 1] == '\n' { assert s[..b + 2] == s[..b] + "\r\n"; }
  }

  /** A piece that fm drops has a managed line. */
  lemma DroppedIsManaged(plan: Plan, l: string, p: string)
    requires Clean(l) && Clean(plan.header) && Dropped(plan, p) && (p == l || Broken(l, p))
    ensures l == plan.header || ManagedKey(plan, l).Some?
  {
    hide ManagedKey, Bare, Broken, Strip;
    if Bare(p) == plan.header {
      BareIsLine(l, p);
    } else {
      EndIsStripped(l, p);
      SameStrip(plan, p, l);
    }
  }

  lemma BareIsLine(l: string, p: string)
    requires Clean(l) && (p == l || Broken(l, p))
    ensures Clean(Bare(p)) ==> Bare(p) == l
  {
    if p == l + "\r\n" || p == l + "\r" {
      BareOf(l, l);
      assert p[..|p| - 1] == (if p == l + "\r" then l else l + "\r") && (l + "\r")[..|l|] == l;
    } else if p != l {
      assert p[..|l|] == l;
    }
  }

  lemma EndIsStripped(l: string, p: string)
    requires p == l || Broken(l, p)
    ensures Strip(p, PySpace) == Strip(l, PySpace)
  {
    hide PySpace, Strip, LineBreak;
    if p == l + "\r\n" {
      ReturnsAreSpace();
      StripBefore(l, '\r');
      StripBefore(l + ['\r'], '\n');
      assert p == l + ['\r'] + ['\n'];
    } else if p != l {
      var c :| LineBreak(c) && p == l + [c];
      BreakIsSpace(c);
      StripBefore(l, c);
    }
  }

  lemma ReturnsAreSpace()
    ensures PySpace('\r') && PySpace('\n')
  {
  }

  lemma BreakIsSpace(c: char)
    requires LineBreak(c)
    ensures PySpace(c)
  {
  }

  lemma SplitAt(s: string, b: nat)
    requires b < |s| && LineBreak(s[b]) && forall k :: 0 <= k < b ==> !LineBreak(s[k])
    ensures SplitLines(s) == [s[..b]] +
              SplitLines(s[if s[b] == '\r' && b + 1 < |s| && s[b + 1] == '\n' then b + 2 else b + 1..])
  {
    BreakIs(s, b);
    Splitting(s);
    hide LineBreak, BreakAt, AfterBreak, SplitLines;
  }

  /** A line with its break in front of a text that does not complete the break. */
  lemma LineInFront(l: string, p: string, t: string)
    requires Clean(l) && Broken(l, p) && (p == l + "\r" && t != "" ==> t[0] != '\n')
    ensures SplitLines(p + t) == [l] + SplitLines(t)
  {
    hide SplitLines, LineBreak;
    var s := p + t;
    forall k | 0 <= k < |l| ensures !LineBreak(s[k]) { assert s[k] == l[k]; }
    ReturnBreaks();
    assert s[|l|] == p[|l|];
    SplitAt(s, |l|);
    if p == l + "\r\n" {
      assert s[|l| + 1] == '\n' && s[|l| + 2..] == t;
    } else {
      assert s[|l| + 1..] == t;
    }
    assert s[..|l|] == l;
  }

  lemma ReturnBreaks()
    ensures LineBreak('\r') && LineBreak('\n')
  {
  }

  /** A last line, with a newline or nothing after it. */
  lemma LineAtTheEnd(l: string, t: string)
    requires Clean(l) && l != "" && (t == "" || t[0] == '\n')
    ensures SplitLines(l + t) == [l] + SplitLines(if t != "" then t[1..] else t)
  {
    if t == "" {
    } else {
      hide LineBreak, SplitLines;
      assert l + t == l + ['\n'] + t[1..] && (l + ['\n'])[|l|] != '\r';
      LineInFront(l, l + ['\n'], t[1..]);
    }
  }

  /** Where the text kept by fm goes on: nothing, a new line, or whatever follows a line break. */
  ghost predicate GoesOn(kept: string, t: string) {
    t == "" || t[0] == '\n' || kept == "" || LineBreak(kept[|kept| - 1])
  }

  lemma {:induction false} FmKeepsUnmanaged(plan: Plan, s: string, t: string)
    requires Valid(plan) && ReturnsStay(plan, s) && GoesOn(FmText(plan, s), t)
    ensures Subsequence(Unmanaged(plan, SplitLines(s)), SplitLines(FmText(plan, s) + t))
    decreases |s|
  {
    hide Valid, Dropped, ManagedKey, BreakAt, AfterBreak, FmText, Unmanaged, SplitLines, Subsequence, Clean,
         ReturnsStay, LineBreak, Broken;
    if s == "" {
      NothingUnmanaged(plan, s, SplitLines(FmText(plan, s) + t));
    } else {
      var l, p, rest := s[..BreakAt(s)], s[..AfterBreak(s)], s[AfterBreak(s)..];
      Splitting(s);
      FirstPieceAndLine(s);
      FmTextCons(plan, s);
      ReturnsStayAfter(plan, s);
      UnmanagedCons(plan, l, SplitLines(rest));
      HeaderIsClean(plan);
      if Dropped(plan, p) {
        assert FmText(plan, s) == FmText(plan, rest);
        FmKeepsUnmanaged(plan, rest, t);
        DroppedIsManaged(plan, l, p);
        assert [] + Unmanaged(plan, SplitLines(rest)) == Unmanaged(plan, SplitLines(rest));
      } else {
        var kept := FmText(plan, rest);
        FirstPieceIsAPiece(s);
        assert FmText(plan, s) == p + kept && FmText(plan, s) + t == p + (kept + t);
        if p == l {
          LastLineStays(plan, l, rest, t);
        } else if p == l + "\r" && kept == "" && t != "" && t[0] == '\n' {
          FmKeepsUnmanaged(plan, rest, "");
          ReturnMeetsTail(plan, l, rest, t);
        } else {
          FmKeepsUnmanaged(plan, rest, t);
          LineInFront(l, p, kept + t);
          SubsequenceInFront(l, Unmanaged(plan, SplitLines(rest)), SplitLines(kept + t));
          assert [] + Unmanaged(plan, SplitLines(rest)) == Unmanaged(plan, SplitLines(rest));
        }
      }
    }
  }

  lemma ReturnsStayAfter(plan: Plan, s: string)
    requires s != "" && ReturnsStay(plan, s)
    ensures var p, rest := s[..AfterBreak(s)], s[AfterBreak(s)..];
            && ReturnsStay(plan, rest)
            && (!Dropped(plan, p) && p[|p| - 1] == '\r' && FmText(plan, rest) != "" ==> FmText(plan, rest)[0] != '\n')
  {
  }

  /** A kept return before the newline that fm adds. */
  lemma ReturnMeetsTail(plan: Plan, l: string, rest: string, t: string)
    requires Clean(l) && FmText(plan, rest) == "" && t != "" && t[0] == '\n'
    requires Subsequence(Unmanaged(plan, SplitLines(rest)), SplitLines(FmText(plan, rest) + ""))
    ensures var a, b := Unmanaged(plan, SplitLines(rest)), SplitLines(l + "\r" + (FmText(plan, rest) + t));
            Subsequence([l] + a, b) && Subsequence([] + a, b)
  {
    hide FmText, Unmanaged;
    assert SplitLines(FmText(plan, rest) + "") == [];
    assert Unmanaged(plan, SplitLines(rest)) == [];
    assert l + "\r" + (FmText(plan, rest) + t) == l + "\r\n" + t[1..];
    hide SplitLines;
    LineInFront(l, l + "\r\n", t[1..]);
    SubsequenceInFront(l, [], SplitLines(t[1..]));
  }

  lemma LastLineStays(plan: Plan, l: string, rest: string, t: string)
    requires Clean(l) && l != "" && rest == "" && GoesOn(l + FmText(plan, rest), t)
    ensures var b := SplitLines(l + FmText(plan, rest) + t); var a := Unmanaged(plan, SplitLines(rest));
            Subsequence([l] + a, b) && Subsequence([] + a, b)
  {
    NothingKept(plan, rest);
    hide FmText;
    assert l + FmText(plan, rest) == l && LineBreak(l[|l| - 1]) == false;
    LineAtTheEnd(l, t);
    SubsequenceInFront(l, [], SplitLines(if t != "" then t[1..] else t));
  }

  lemma NothingUnmanaged(plan: Plan, s: string, b: seq<string>)
    requires s == ""
    ensures SplitLines(s) == [] && Unmanaged(plan, SplitLines(s)) == [] && Subsequence([], b)
  {
  }

  lemma HeaderIsClean(plan: Plan)
    requires Valid(plan)
    ensures Clean(plan.header)
  {
  }

  lemma FmHoldsUnmanaged(plan: Plan, original: string)
    requires Valid(plan) && !plan.mlx && ReturnsStay(plan, original) && Rendered(plan, original).Some?
    ensures Subsequence(Unmanaged(plan, SplitLines(original)), SplitLines(Rendered(plan, original).value))
  {
    hide *;
    FmRenderedIs(plan, original);
    var kept, tail := FmText(plan, original), Unlines([plan.header] + Pairs(plan.managed));
    FinishedGoesOn(kept, tail);
    FmKeepsUnmanaged(plan, original, if EndsLine(kept) then tail else "\n" + tail);
  }

  lemma FinishedGoesOn(kept: string, tail: string)
    ensures var t := if EndsLine(kept) then tail else "\n" + tail; GoesOn(kept, t) && Finished(kept) + tail == kept + t
  {
  }

  /**
   The lines of the rendered file hold every unmanaged line in order, up to the blank lines
   mlx drops from the end. What else they hold are the header and the managed assignments,
   unless an active secret is commented out. For fm this needs that no dropped piece stands
   between a kept carriage return and a newline, and its last part that newlines are the only
   breaks.
   */
  lemma UnmanagedLinesSurvive(plan: Plan, original: string)
    requires Valid(plan) && (plan.mlx || ReturnsStay(plan, original)) && Rendered(plan, original).Some?
    ensures var lines, rendered := SplitLines(original), SplitLines(Rendered(plan, original).value);
            && Subsequence(Lasting(plan, lines), rendered)
            && ((plan.mlx || OnlyNewlines(original)) && NoActiveSecret(plan, lines) ==>
                  rendered == Lasting(plan, lines) +
                              ((if plan.mlx then [""] else []) + ([plan.header] + Pairs(plan.managed))))
  {
    hide *;
    UnmanagedIsLasting(plan, SplitLines(original));
    if plan.mlx || OnlyNewlines(original) { LinesSurvive(plan, original); }
    if !plan.mlx { FmHoldsUnmanaged(plan, original); }
  }

  lemma UnmanagedIsLasting(plan: Plan, lines: seq<string>)
    ensures !plan.mlx ==> Lasting(plan, lines) == Unmanaged(plan, lines)
  {
  }

  lemma LinesSurvive(plan: Plan, original: string)
    requires Valid(plan) && (plan.mlx || OnlyNewlines(original)) && Rendered(plan, original).Some?
    ensures var lines, rendered := SplitLines(original), SplitLines(Rendered(plan, original).value);
            && Subsequence(Lasting(plan, lines), rendered)
            && (NoActiveSecret(plan, lines) ==>
                  rendered == Lasting(plan, lines) +
                              ((if plan.mlx then [""] else []) + ([plan.header] + Pairs(plan.managed))))
  {
    var lines := SplitLines(original);
    RenderedLines(plan, original);
    KeptHoldsUnmanaged(plan, lines);
    hide Kept, Rendered, ActiveSecret, ManagedKey, Subsequence, Valid, Trimmed, Pairs, SplitLines, Unmanaged;
    SplitLinesUnlines(Output(plan, lines));
    var kept := Kept(plan, lines);
    if plan.mlx {
      TrimmedSubsequence(Unmanaged(plan, lines), kept);
      Associate(Trimmed(kept), [""], [plan.header] + Pairs(plan.managed));
      SubsequenceGrows(Lasting(plan, lines), Trimmed(kept), [""] + ([plan.header] + Pairs(plan.managed)));
    } else {
      assert [] + ([plan.header] + Pairs(plan.managed)) == [plan.header] + Pairs(plan.managed);
      SubsequenceGrows(Lasting(plan, lines), kept, [plan.header] + Pairs(plan.managed));
    }
  }
}
