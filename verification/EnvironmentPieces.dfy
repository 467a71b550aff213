/**
 When mlx keeps what a line assigns, told from its pieces alone: what is left of the line is
 blank or a comment, apart from one piece that is the whole line up to whitespace.
 */
module EnvironmentPieces {
  import opened Wrappers
  import opened Text
  import opened EnvironmentFile
  import opened EnvironmentKeys
  import opened EnvironmentLines
  import opened EnvironmentRender
  import opened EnvironmentAgreement

  /** Blank, or a comment. */
  predicate Insignificant(line: string) {
    var l := Strip(line, RustSpace);
    l == "" || l[0] == '#'
  }

  ghost predicate AllInsignificant(lines: seq<string>) {
    forall i :: 0 <= i < |lines| ==> Insignificant(lines[i])
  }

  /** The `i`-th line is the whole of the text up to whitespace, and the others are insignificant. */
  ghost predicate WholeAt(text: string, lines: seq<string>, i: nat) {
    && i < |lines| && Strip(lines[i], RustSpace) == Strip(text, RustSpace)
    && forall j :: 0 <= j < |lines| && j != i ==> Insignificant(lines[j])
  }

  /** What is left of a line that assigns an unmanaged key is that line; of any other, nothing of significance. */
  ghost predicate LeftWhole(plan: Plan, line: string, left: seq<string>) {
    if Own(plan, line) == map[] then AllInsignificant(left) else exists i: nat :: WholeAt(line, left, i)
  }

  // ---------------------------------------------------------------- stripping

  /** Leading whitespace does not matter. */
  lemma LeadingSpace(a: string, t: string)
    requires forall k :: 0 <= k < |a| ==> RustSpace(a[k])
    ensures Strip(a + t, RustSpace) == Strip(t, RustSpace)
  {
    hide RustSpace, Strip;
    if Strip(t, RustSpace) != "" {
      var i, j := StripSpan(t, RustSpace);
      assert forall k :: 0 <= k < |a + t| ==> (a + t)[k] == if k < |a| then a[k] else t[k - |a|];
      StripIs(a + t, |a| + i, |a| + j, RustSpace);
      assert (a + t)[|a| + i..|a| + j] == t[i..j];
    } else {
      NothingIsSpace(t);
      SpaceStrips(a + t, RustSpace);
    }
  }

  lemma NothingIsSpace(t: string)
    requires Strip(t, RustSpace) == ""
    ensures forall k :: 0 <= k < |t| ==> RustSpace(t[k])
  {
  }

  /** Trailing whitespace does not matter. */
  lemma TrailingSpace(t: string, a: string)
    requires forall k :: 0 <= k < |a| ==> RustSpace(a[k])
    ensures Strip(t + a, RustSpace) == Strip(t, RustSpace)
  {
    hide RustSpace, Strip;
    assert forall k :: 0 <= k < |t + a| ==> (t + a)[k] == if k < |t| then t[k] else a[k - |t|];
    if Strip(t, RustSpace) != "" {
      var i, j := StripSpan(t, RustSpace);
      StripIs(t + a, i, j, RustSpace);
      assert (t + a)[i..j] == t[i..j];
    } else {
      NothingIsSpace(t);
      SpaceStrips(t + a, RustSpace);
    }
  }

  // ---------------------------------------------------------------- a value and what follows it

  predicate QuoteMark(c: char) {
    c == '\"' || c == '\''
  }

  /** An empty value in quotes. */
  predicate EmptyQuotes(v: string) {
    |v| == 2 && QuoteMark(v[0]) && v[1] == v[0]
  }

  /** More text changes a value, unless it was empty and the text is an empty value in quotes. */
  lemma UnquoteGrows(r: string, w: string)
    requires w != "" && !RustSpace(w[|w| - 1]) && Unquote(r).Some? && Unquote(r + w) == Unquote(r)
    ensures Strip(r, RustSpace) == "" && EmptyQuotes(Strip(w, RustSpace))
  {
    hide RustSpace, Strip;
    var t := r + w;
    assert t[|t| - 1] == w[|w| - 1];
    if Strip(r, RustSpace) == "" {
      NothingIsSpace(r);
      LeadingSpace(r, w);
      NonSpaceStays(w, |w| - 1);
    } else {
      var a, b := StripSpan(r, RustSpace);
      assert forall k :: 0 <= k < |r| ==> t[k] == r[k];
      StripIs(t, a, |t|, RustSpace);
      assert t[a..|t|][0] == r[a..b][0];
      LongerValue(r[a..b], t[a..|t|]);
    }
  }

  lemma NonSpaceStays(s: string, k: nat)
    requires k < |s| && !RustSpace(s[k])
    ensures Strip(s, RustSpace) != ""
  {
    hide RustSpace, Strip;
    if Strip(s, RustSpace) == "" { NothingIsSpace(s); }
  }

  /** The value of a stripped text. */
  function Inner(v: string): Option<string> {
    if v != "" && QuoteMark(v[0]) then if |v| >= 2 && v[|v| - 1] == v[0] then Some(v[1..|v| - 1]) else None
    else Some(v)
  }

  lemma LongerValue(p: string, w: string)
    requires p != "" && |w| > |p| && w[0] == p[0] && Inner(p).Some?
    ensures Inner(w) != Inner(p)
  {
    if Inner(w).Some? { assert |Inner(w).value| - |Inner(p).value| == |w| - |p|; }
  }

  /** A stripped text and what follows it, stripped. */
  lemma LongerStrip(x: string, q: string) returns (w: string)
    requires Strip(x, RustSpace) != "" && Strip(q, RustSpace) != ""
    ensures w != "" && !RustSpace(w[|w| - 1]) && Strip(x + q, RustSpace) == Strip(x, RustSpace) + w
    ensures Strip(w, RustSpace) == Strip(q, RustSpace)
  {
    hide RustSpace, Strip;
    var a, b := StripSpan(x, RustSpace);
    var i, j := StripSpan(q, RustSpace);
    var s := x + q;
    assert forall k :: 0 <= k < |s| ==> s[k] == if k < |x| then x[k] else q[k - |x|];
    StripIs(s, a, |x| + j, RustSpace);
    w := x[b..] + q[..j];
    Regrouped(x, q, a, b, j);
    assert q[..j][j - 1] == q[j - 1];
    LeadingSpace(x[b..], q[..j]);
    StripIs(q[..j], i, j, RustSpace);
    assert q[..j][i..j] == q[i..j];
  }

  lemma Regrouped(x: string, q: string, a: nat, b: nat, j: nat)
    requires a <= b <= |x| && j <= |q|
    ensures (x + q)[a..|x| + j] == x[a..b] + (x[b..] + q[..j])
  {
  }

  lemma ExportHasNoEquals(s: string, e: nat)
    requires "export" <= s && e < |s| && s[e] == '='
    ensures e >= 6
  {
    assert forall k :: 0 <= k < 6 ==> s[k] == "export"[k];
  }

  lemma SameExport(t: string, w: string, e: nat)
    requires e < |t| && t[e] == '='
    ensures Exported(t + w) == Exported(t)
  {
    var s := t + w;
    assert s[e] == '=';
    if "export" <= s { ExportHasNoEquals(s, e); }
    if |t| > 6 { assert s[..6] == t[..6] && s[6] == t[6]; }
  }

  lemma {:induction false} TrimLeftGrows(t: string, w: string, e: nat)
    requires e < |t| && !RustSpace(t[e])
    ensures TrimLeft(t + w, RustSpace) == TrimLeft(t, RustSpace) + w && |TrimLeft(t, RustSpace)| >= |t| - e
  {
    hide RustSpace;
    assert (t + w)[0] == t[0];
    if RustSpace(t[0]) {
      assert (t + w)[1..] == t[1..] + w;
      TrimLeftGrows(t[1..], w, e - 1);
    }
  }

  /** The body of a longer line is its body and the rest. */
  lemma LongerBody(t: string, w: string, e: nat)
    requires e < |t| && t[e] == '='
    ensures AfterExport(t + w) == AfterExport(t) + w && |AfterExport(t)| >= |t| - e
  {
    SameExport(t, w, e);
    assert !RustSpace('=');
    hide TrimLeft, RustSpace;
    if Exported(t) {
      assert (t + w)[6..] == t[6..] + w;
      ExportHasNoEquals(t, e);
      TrimLeftGrows(t[6..], w, e - 6);
    }
  }

  lemma EqualsStays(s: string, w: string)
    requires IndexOf(s, '=') < |s|
    ensures IndexOf(s + w, '=') == IndexOf(s, '=')
  {
    var e := IndexOf(s, '=');
    assert forall k :: 0 <= k <= e ==> (s + w)[k] == s[k];
    EqualsAt(s + w, e);
  }

  /** If a longer body assigns the same, its value was empty and more than that follows. */
  lemma LongerAssigns(body: string, w: string)
    requires w != "" && !RustSpace(w[|w| - 1]) && ParseBody(body).Assign? && ParseBody(body + w) == ParseBody(body)
    ensures EmptyQuotes(Strip(w, RustSpace))
  {
    hide RustSpace, Strip, IsKey, Unquote;
    var e := IndexOf(body, '=');
    EqualsStays(body, w);
    assert (body + w)[e + 1..] == body[e + 1..] + w;
    UnquoteGrows(body[e + 1..], w);
  }

  lemma StripHasEquals(x: string)
    requires ParseLine(x).Assign?
    ensures var t := Strip(x, RustSpace);
            && t != "" && t[0] != '#' && ParseLine(x) == ParseBody(AfterExport(t))
            && exists e: nat :: e < |t| && t[e] == '='
  {
    hide AfterExport, ParseBody, Strip, Quiet, KeyChar, RustSpace;
    BodyStands(Strip(x, RustSpace));
  }

  lemma BodyOf(x: string)
    requires Strip(x, RustSpace) != "" && Strip(x, RustSpace)[0] != '#'
    ensures ParseLine(x) == ParseBody(AfterExport(Strip(x, RustSpace)))
  {
  }

  /** A line assigns the same without its end only if that is blank, or an empty value in quotes. */
  lemma OnlySpaceFollows(x: string, q: string)
    requires ParseLine(x).Assign? && ParseLine(x + q) == ParseLine(x)
    ensures Strip(x + q, RustSpace) == Strip(x, RustSpace) || EmptyQuotes(Strip(q, RustSpace))
  {
    hide *;
    if Strip(q, RustSpace) == "" {
      NothingIsSpace(q);
      TrailingSpace(x, q);
    } else {
      StripHasEquals(x);
      var t := Strip(x, RustSpace);
      var e: nat :| e < |t| && t[e] == '=';
      var w := LongerStrip(x, q);
      LongerBody(t, w, e);
      assert (t + w)[0] == t[0];
      BodyOf(x + q);
      LongerAssigns(AfterExport(t), w);
    }
  }

  // ---------------------------------------------------------------- the pieces of a line

  /** No piece that the renderer keeps, unless it is blank, is malformed. */
  ghost predicate Sound(plan: Plan, s: string) {
    forall y :: y in SplitLines(s) && ManagedKey(plan, y).None? && y != plan.header && Strip(y, PySpace) != ""
                ==> ParseLine(y) != Bad
  }

  /** Whitespace and key characters before the first equals sign. */
  ghost predicate QuietFront(s: string) {
    Quiet(s, IndexOf(s, '='))
  }

  lemma StripHas(s: string, c: char)
    requires c in Strip(s, RustSpace)
    ensures c in s
  {
  }

  lemma BodyHas(line: string, c: char)
    requires c in AfterExport(line)
    ensures c in line
  {
    hide AfterExport;
    BodyIsATail(line);
  }

  /** Text without an equals sign or a hash is blank or malformed. */
  lemma NoEqualsIsBad(y: string)
    requires '=' !in y && '#' !in y && Strip(y, RustSpace) != ""
    ensures ParseLine(y) == Bad
  {
    hide *;
    var t := Strip(y, RustSpace);
    if t[0] == '#' { StripHas(y, '#'); }
    BodyOf(y);
    if '=' in AfterExport(t) {
      BodyHas(t, '=');
      StripHas(y, '=');
    }
    NoEqualsInBody(AfterExport(t));
  }

  lemma NoEqualsInBody(body: string)
    requires '=' !in body
    ensures ParseBody(body) == Bad
  {
  }

  lemma NotBlank(y: string, k: nat)
    requires k < |y| && !PySpace(y[k])
    ensures Strip(y, PySpace) != ""
  {
  }

  lemma QuietPiece(y: string)
    requires Quiet(y, |y|)
    ensures '=' !in y && '#' !in y
  {
    hide RustSpace, KeyChar;
    forall i | 0 <= i < |y| ensures y[i] != '=' && y[i] != '#' { QuietCharacter(y[i]); }
  }

  lemma MalformedPiece(plan: Plan, y: string, k: nat)
    requires Valid(plan) && k < |y| && KeyChar(y[k]) && Quiet(y, |y|)
    ensures ManagedKey(plan, y).None? && y != plan.header && Strip(y, PySpace) != "" && ParseLine(y) == Bad
  {
    hide *;
    QuietPiece(y);
    HeaderHash(plan);
    NoEqualsNoKey(plan, y);
    KeyCharIsNoSpace(y[k]);
    NotBlank(y, k);
    NonSpaceStays(y, k);
    NoEqualsIsBad(y);
  }

  /** A quiet piece of a sound line is blank. */
  lemma QuietIsBlank(plan: Plan, s: string, y: string)
    requires Valid(plan) && Sound(plan, s) && y in SplitLines(s) && Quiet(y, |y|)
    ensures forall k :: 0 <= k < |y| ==> RustSpace(y[k])
  {
    hide KeyChar, RustSpace, Valid, ParseLine, ManagedKey, SplitLines, Strip;
    if k :| 0 <= k < |y| && !RustSpace(y[k]) { MalformedPiece(plan, y, k); }
  }

  lemma BreaksAreSpace(s: string)
    requires Quiet(s, AfterBreak(s))
    ensures forall k :: BreakAt(s) <= k < AfterBreak(s) ==> RustSpace(s[k])
  {
    hide RustSpace, KeyChar;
    forall k | BreakAt(s) <= k < AfterBreak(s) ensures RustSpace(s[k]) {
      assert LineBreak('\n');
      BreakIsNoKey(s[k]);
    }
  }

  lemma QuietSlices(s: string, b: nat, c: nat, n: nat)
    requires b <= c <= n <= |s| && Quiet(s, n)
    ensures Quiet(s[..b], b) && Quiet(s, c) && Quiet(s[c..], n - c)
  {
    hide RustSpace, KeyChar;
  }

  lemma SoundAfter(plan: Plan, s: string)
    requires s != "" && Sound(plan, s)
    ensures Sound(plan, s[AfterBreak(s)..])
  {
    hide ManagedKey, Strip, ParseLine;
    Splitting(s);
  }

  /**
   The piece that holds the key, and all that follows it: if the line is sound, only
   whitespace stands before that piece.
   */
  lemma {:induction false} MainPiece(plan: Plan, s: string, key: string) returns (x: string, q: string)
    requires Valid(plan) && Holds(s, key) && QuietFront(s) && Sound(plan, s)
    ensures x in SplitLines(s) && Holds(x, key) && Strip(x + q, RustSpace) == Strip(s, RustSpace)
    ensures forall z :: z in SplitLines(q) && z != "" ==> z in SplitLines(s)
    decreases |s|
  {
    hide *;
    HeldHasEquals(s, key);
    Splitting(s);
    FirstPiece(s);
    var b, c, e := BreakAt(s), AfterBreak(s), IndexOf(s, '=');
    if e < b {
      x, q := s[..b], s[b..];
      SliceHolds(s, 0, b, key);
      assert s[0..b] == s[..b] && x + q == s;
      RestOfPieces(s);
    } else {
      BreakEndsNoKey(s);
      SliceHolds(s, c, |s|, key);
      assert s[c..|s|] == s[c..] && s == s[..c] + s[c..];
      QuietFrontIs(s);
      QuietFrontIs(s[c..]);
      QuietSlices(s, b, c, e);
      QuietIsBlank(plan, s, s[..b]);
      BreaksAreSpace(s);
      assert forall k :: 0 <= k < c ==> s[..c][k] == if k < b then s[..b][k] else s[k];
      LeadingSpace(s[..c], s[c..]);
      SoundAfter(plan, s);
      x, q := MainPiece(plan, s[c..], key);
    }
  }

  lemma QuietFrontIs(s: string)
    ensures QuietFront(s) <==> Quiet(s, IndexOf(s, '='))
  {
  }

  lemma RestOfPieces(s: string)
    requires s != ""
    ensures forall z :: z in SplitLines(s[BreakAt(s)..]) && z != "" ==> z in SplitLines(s)
  {
    hide SplitLines, LineBreak;
    Splitting(s);
    var b, q := BreakAt(s), s[BreakAt(s)..];
    if b < |s| {
      assert q[0] == s[b] && BreakAt(q) == 0;
      assert q[AfterBreak(q)..] == s[AfterBreak(s)..];
      Splitting(q);
    } else {
      NothingLeft(q);
    }
  }

  lemma SliceOfSlice(s: string, a: nat, b: nat, i: nat, j: nat)
    requires i <= a <= b <= j <= |s|
    ensures s[i..j][a - i..b - i] == s[a..b]
  {
    var t := s[i..j];
    forall k | 0 <= k < b - a ensures t[a - i..b - i][k] == s[a..b][k] { assert t[a - i + k] == s[a + k]; }
    assert t[a - i..b - i] == s[a..b];
  }

  lemma PieceStrips(s: string, a: nat, b: nat, i: nat, j: nat)
    requires i <= a && b <= j <= |s| && Span(s, a, b, RustSpace)
    ensures Strip(s[i..j], RustSpace) == s[a..b]
  {
    hide RustSpace, Strip;
    StripIs(s[i..j], a - i, b - i, RustSpace);
    SliceOfSlice(s, a, b, i, j);
  }

  lemma NoBreakIn(s: string, a: nat)
    requires a + 1 < |s| && !LineBreak(s[a]) && !LineBreak(s[a + 1])
    ensures a + 2 <= BreakAt(s) || AfterBreak(s) <= a
  {
    NewlineBreaks();
    AfterBreakIs(s);
    hide LineBreak, BreakAt, AfterBreak;
  }

  lemma NewlineBreaks()
    ensures LineBreak('\n')
  {
  }

  /** An empty value in quotes with only whitespace around it is all of one piece but whitespace. */
  lemma {:induction false} QuotedPiece(s: string) returns (z: string)
    requires EmptyQuotes(Strip(s, RustSpace))
    ensures z in SplitLines(s) && Strip(z, RustSpace) == Strip(s, RustSpace)
    decreases |s|
  {
    hide SplitLines, RustSpace, Strip, BreakAt, AfterBreak;
    var a, b := StripSpan(s, RustSpace);
    assert s[a..b][0] == s[a] && s[a..b][1] == s[a + 1];
    NoBreakIn(s, a);
    Splitting(s);
    if a < BreakAt(s) {
      z := s[..BreakAt(s)];
      assert z == s[0..BreakAt(s)];
      PieceStrips(s, a, b, 0, BreakAt(s));
    } else {
      var c := AfterBreak(s);
      assert s[c..] == s[c..|s|];
      PieceStrips(s, a, b, c, |s|);
      z := QuotedPiece(s[c..]);
    }
  }

  lemma QuoteOrSpace(c: char)
    requires RustSpace(c) || QuoteMark(c)
    ensures c != '=' && c != '#' && (QuoteMark(c) ==> !PySpace(c))
  {
  }

  /** Such a piece is malformed. */
  lemma QuotesAreMalformed(plan: Plan, z: string)
    requires Valid(plan) && EmptyQuotes(Strip(z, RustSpace))
    ensures ManagedKey(plan, z).None? && z != plan.header && Strip(z, PySpace) != "" && ParseLine(z) == Bad
  {
    hide RustSpace, PySpace, Strip, QuoteMark, ParseLine, ManagedKey, Valid;
    var a, b := StripSpan(z, RustSpace);
    assert z[a..b][0] == z[a] && z[a..b][1] == z[a + 1];
    forall k | 0 <= k < |z| ensures z[k] != '=' && z[k] != '#' { QuoteOrSpace(z[k]); }
    QuoteOrSpace(z[a]);
    HeaderHash(plan);
    NoEqualsNoKey(plan, z);
    NotBlank(z, a);
    NoEqualsIsBad(z);
  }

  /** No sound line has such a piece. */
  lemma NoQuotedPiece(plan: Plan, s: string, z: string)
    requires Valid(plan) && Sound(plan, s) && z in SplitLines(s)
    ensures !EmptyQuotes(Strip(z, RustSpace))
  {
    hide Valid, SplitLines, EmptyQuotes, ParseLine, ManagedKey, Strip;
    if EmptyQuotes(Strip(z, RustSpace)) { QuotesAreMalformed(plan, z); }
  }

  // ---------------------------------------------------------------- what is left of a line

  lemma SkipIs(line: string)
    ensures ParseLine(line) == Skip <==> Insignificant(line)
  {
    hide ParseBody, AfterExport, Strip;
    BodyIsNoSkip(AfterExport(Strip(line, RustSpace)));
  }

  /** Lines that assign nothing are the insignificant ones. */
  lemma {:induction false} NothingAssigned(lines: seq<string>)
    ensures Parsed(lines) == Some(map[]) <==> AllInsignificant(lines)
  {
    hide ParseLine, Insignificant;
    if lines != [] {
      var n := |lines| - 1;
      NothingAssigned(lines[..n]);
      SkipIs(lines[n]);
      if ParseLine(lines[n]).Assign? && Parsed(lines[..n]).Some? {
        OneMoreKey(Parsed(lines[..n]).value, ParseLine(lines[n]).key, ParseLine(lines[n]).value);
      }
    }
  }

  lemma OneMoreKey(m: Values, k: string, v: string)
    ensures m[k := v] != map[]
  {
    assert k in m[k := v];
  }

  lemma OneAssigns(line: string, k: string)
    requires ParseLine(line).Assign? && ParseLine(line).key == k
    ensures Parsed([line]) == Some(map[k := ParseLine(line).value])
  {
    hide ParseLine;
    ParsedAdd([], line);
    assert [] + [line] == [line];
  }

  /** Lines of which one assigns a key read as that assignment exactly when the others are insignificant. */
  lemma OnlyOneAssigns(lines: seq<string>, i: nat, k: string, v: string)
    requires i < |lines| && ParseLine(lines[i]).Assign? && ParseLine(lines[i]).key == k
    ensures Parsed(lines) == Some(map[k := v]) <==>
              ParseLine(lines[i]).value == v && forall j :: 0 <= j < |lines| && j != i ==> Insignificant(lines[j])
  {
    hide ParseLine, Insignificant, Parsed, Both;
    var a, x, b := lines[..i], lines[i], lines[i + 1..];
    assert lines == a + [x] + b;
    ParsedConcat(a + [x], b);
    ParsedConcat(a, [x]);
    OneAssigns(x, k);
    BothOfOne(Parsed(a), k, ParseLine(x).value, Parsed(b), v);
    NothingAssigned(a);
    NothingAssigned(b);
    Others(lines, i);
  }

  lemma BothOfOne(a: Option<Values>, k: string, u: string, b: Option<Values>, v: string)
    ensures Both(Both(a, Some(map[k := u])), b) == Some(map[k := v]) <==> a == Some(map[]) && b == Some(map[]) && u == v
  {
    if a.Some? && b.Some? {
      var m := a.value + map[k := u] + b.value;
      assert a.value == map[] && b.value == map[] ==> m == map[k := u];
      if Both(Both(a, Some(map[k := u])), b) == Some(map[k := v]) {
        assert forall j :: j in a.value ==> j in m && j != k;
        assert forall j :: j in b.value ==> j in m && j != k;
        assert a.value == map[] && b.value == map[] && m[k] == u;
      }
    }
  }

  lemma Others(lines: seq<string>, i: nat)
    requires i < |lines|
    ensures AllInsignificant(lines[..i]) && AllInsignificant(lines[i + 1..]) <==>
              forall j :: 0 <= j < |lines| && j != i ==> Insignificant(lines[j])
  {
    hide Insignificant;
    if AllInsignificant(lines[..i]) && AllInsignificant(lines[i + 1..]) {
      forall j | 0 <= j < |lines| && j != i ensures Insignificant(lines[j]) {
        if j < i { assert lines[..i][j] == lines[j]; } else { assert lines[i + 1..][j - i - 1] == lines[j]; }
      }
    }
  }

  /** What mlx leaves of a line: all it keeps of it, or that without the blank lines at its end. */
  ghost predicate LeftOf(plan: Plan, line: string, left: seq<string>) {
    left == Kept(plan, SplitLines(line)) || left == Trimmed(Kept(plan, SplitLines(line)))
  }

  lemma {:induction false} KeptHas(plan: Plan, lines: seq<string>, y: string)
    requires y in lines && ManagedKey(plan, y).None? && y != plan.header
    ensures y in Kept(plan, lines)
  {
    hide ManagedKey, ActiveSecret;
    var n := |lines| - 1;
    if y != lines[n] { KeptHas(plan, lines[..n], y); }
  }

  lemma LeftHas(plan: Plan, line: string, left: seq<string>, y: string)
    requires LeftOf(plan, line, left) && y in SplitLines(line) && ManagedKey(plan, y).None? && y != plan.header
    requires Strip(y, PySpace) != ""
    ensures y in left
  {
    hide Kept, SplitLines, Trimmed, ManagedKey, Strip;
    KeptHas(plan, SplitLines(line), y);
    TrimmedKeeps(Kept(plan, SplitLines(line)), y);
  }

  lemma LeftIsSound(plan: Plan, line: string, left: seq<string>)
    requires LeftOf(plan, line, left) && Parsed(left).Some?
    ensures Sound(plan, line)
  {
    hide LeftOf, SplitLines, ManagedKey, Strip, ParseLine, Parsed;
    forall y | y in SplitLines(line) && ManagedKey(plan, y).None? && y != plan.header && Strip(y, PySpace) != ""
      ensures ParseLine(y) != Bad {
      LeftHas(plan, line, left, y);
      var i: nat :| i < |left| && left[i] == y;
      ParsedHasNoBad(left, i);
    }
  }

  /** Before the equals sign of an assignment stand whitespace and key characters. */
  lemma AssignmentIsQuiet(raw: string)
    requires ParseLine(raw).Assign?
    ensures QuietFront(raw)
  {
    hide RustSpace, KeyChar, Strip, AfterExport, ParseBody;
    var line := Strip(raw, RustSpace);
    BodyStands(line);
    var a := StrippedStands(raw);
    var at, key := |line| - |AfterExport(line)|, ParseBody(AfterExport(line)).key;
    QuietUpTo(raw, a, line, at, key);
  }

  lemma QuietUpTo(raw: string, a: nat, line: string, at: nat, key: string)
    requires a + |line| <= |raw| && raw[a..a + |line|] == line && (forall k :: 0 <= k < a ==> RustSpace(raw[k]))
    requires at + |key| < |line| && Quiet(line, at) && line[at..at + |key|] == key && line[at + |key|] == '='
    requires forall k :: 0 <= k < |key| ==> KeyChar(key[k])
    ensures QuietFront(raw)
  {
    var e := a + at + |key|;
    hide RustSpace, KeyChar;
    forall k | 0 <= k < |line| ensures raw[a + k] == line[k] { assert raw[a + k] == raw[a..a + |line|][k]; }
    forall k | 0 <= k < e ensures (RustSpace(raw[k]) || KeyChar(raw[k])) && raw[k] != '=' {
      if k >= a { assert raw[k] == line[k - a]; }
      if k >= a + at { assert line[k - a] == key[k - a - at]; }
      QuietCharacter(raw[k]);
    }
    EqualsAt(raw, e);
  }

  /**
   A line that assigns an unmanaged key still assigns that and nothing else exactly when one
   piece of it is the whole line up to whitespace, and what else is left is insignificant.
   */
  lemma AssignmentLeft(plan: Plan, line: string, left: seq<string>, k: string, v: string)
    requires Valid(plan) && LeftOf(plan, line, left) && ParseLine(line) == Assign(k, v) && k !in Keys(plan.managed)
    ensures Parsed(left) == Some(map[k := v]) <==> exists i: nat :: WholeAt(line, left, i)
  {
    hide *;
    if Parsed(left) == Some(map[k := v]) {
      var i := WholePiece(plan, line, left, k, v);
      assert WholeAt(line, left, i);
    }
    if i: nat :| WholeAt(line, left, i) {
      WholeAssigns(line, left, i, k, v);
    }
  }

  lemma WholeAssigns(line: string, left: seq<string>, i: nat, k: string, v: string)
    requires ParseLine(line) == Assign(k, v) && WholeAt(line, left, i)
    ensures Parsed(left) == Some(map[k := v])
  {
    assert ParseLine(left[i]) == ParseLine(line) by { hide Strip, ParseBody, AfterExport; }
    hide Strip, ParseLine, Insignificant, Parsed;
    OnlyOneAssigns(left, i, k, v);
  }

  lemma WholePiece(plan: Plan, line: string, left: seq<string>, k: string, v: string) returns (i: nat)
    requires Valid(plan) && LeftOf(plan, line, left) && ParseLine(line) == Assign(k, v) && k !in Keys(plan.managed)
    requires Parsed(left) == Some(map[k := v])
    ensures WholeAt(line, left, i)
  {
    hide *;
    AssignmentHolds(line);
    AssignmentIsQuiet(line);
    LeftIsSound(plan, line, left);
    var x, q := MainPiece(plan, line, k);
    HeldIsUnmanaged(plan, x, k);
    HeldIsNotBlank(x, k);
    LeftHas(plan, line, left, x);
    i :| 0 <= i < |left| && left[i] == x;
    ParsedHasNoBad(left, i);
    HeldLine(x, k);
    OnlyOneAssigns(left, i, k, v);
    SameStripParses(x + q, line);
    OnlySpaceFollows(x, q);
    if EmptyQuotes(Strip(q, RustSpace)) {
      var z := QuotedPiece(q);
      EmptyQuotesStand(Strip(q, RustSpace));
      StripNothing();
      NoQuotedPiece(plan, line, z);
    }
    WholeIs(line, left, i);
  }

  lemma EmptyQuotesStand(v: string)
    requires EmptyQuotes(v)
    ensures v != ""
  {
  }

  lemma StripNothing()
    ensures Strip("", RustSpace) == ""
  {
  }

  lemma SameStripParses(a: string, b: string)
    requires Strip(a, RustSpace) == Strip(b, RustSpace)
    ensures ParseLine(a) == ParseLine(b)
  {
    hide Strip, ParseBody, AfterExport;
  }

  lemma WholeIs(text: string, lines: seq<string>, i: nat)
    requires i < |lines| && Strip(lines[i], RustSpace) == Strip(text, RustSpace)
    requires forall j :: 0 <= j < |lines| && j != i ==> Insignificant(lines[j])
    ensures WholeAt(text, lines, i)
  {
  }

  lemma LineDecides(plan: Plan, line: string, left: seq<string>)
    requires Valid(plan) && LeftOf(plan, line, left)
    ensures Yields(plan, line, left) <==> LeftWhole(plan, line, left)
  {
    hide Valid, LeftOf, ParseLine, Parsed, WholeAt, AllInsignificant, Keys;
    if Own(plan, line) == map[] {
      NothingAssigned(left);
    } else {
      AssignmentLeft(plan, line, left, ParseLine(line).key, ParseLine(line).value);
    }
  }

  lemma LeftOfLine(plan: Plan, chunks: seq<string>, i: nat)
    requires plan.mlx && i < |chunks|
    ensures LeftOf(plan, chunks[i], Left(plan, chunks)[i])
  {
    hide Kept, SplitLines, Trimmed;
  }

  /** What is left of every line is that line or nothing of significance. */
  ghost predicate EachIsWhole(plan: Plan, original: string) {
    forall i :: 0 <= i < |Chunks(original)| ==>
                  LeftWhole(plan, Chunks(original)[i], Left(plan, Chunks(original))[i])
  }

  /**
   Whatever line breaks a valid file has, the parser reads its assignments overridden by the
   managed settings from what mlx renders exactly when of every line that assigns an unmanaged
   key one piece is left that is the whole line up to whitespace, and what else is left of this
   and of every other line is blank or a comment.
   */
  lemma MlxAgreesExactly(plan: Plan, original: string, m: Values)
    requires Valid(plan) && plan.mlx && Parsed(Split(original)) == Some(m) && Rendered(plan, original).Some?
    ensures Parsed(Split(Rendered(plan, original).value)) == Some(m + Settings(plan.managed)) <==>
              EachIsWhole(plan, original)
  {
    hide *;
    AgreesExactly(plan, original, m);
    WholeLinesAgree(plan, original);
  }

  lemma WholeLinesAgree(plan: Plan, original: string)
    requires Valid(plan) && plan.mlx
    ensures EachLineAgrees(plan, original) <==> EachIsWhole(plan, original)
  {
    hide Valid, Chunks, Yields, LeftWhole, Left, LeftOf;
    LeftHasEach(plan, Chunks(original));
    forall i | 0 <= i < |Chunks(original)|
      ensures Yields(plan, Chunks(original)[i], Left(plan, Chunks(original))[i]) <==>
                LeftWhole(plan, Chunks(original)[i], Left(plan, Chunks(original))[i]) {
      LeftOfLine(plan, Chunks(original), i);
      LineDecides(plan, Chunks(original)[i], Left(plan, Chunks(original))[i]);
    }
  }

  lemma LeftHasEach(plan: Plan, chunks: seq<string>)
    ensures |Left(plan, chunks)| == |chunks|
  {
    hide Block;
  }
}
