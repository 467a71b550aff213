/**
 The generated block between two markers (scripts/check-instructions.py,
 `mirrored_block` and `with_block`).
 */
module MarkedBlock {
  import opened Wrappers

  const B0 := "!-- BEGIN AGENTS.md"
  const B1 := " ## Boundaries (gen"
  const B2 := "erated by scripts/"
  const B3 := "check-instructions"
  const B4 := ".py --write; edit "
  const B5 := "AGENTS.md) -->"
  const E0 := "!-- END AGENTS.md"
  const E1 := " ## Boundaries -->"

  /** The opening and the closing marker, in pieces short enough to inspect character by character. */
  const BEGIN := "<" + (B0 + B1 + B2 + B3 + B4 + B5)
  const END := "<" + (E0 + E1)

  datatype Drift = MarkerCount | MarkerOrder

  ghost predicate Occurs(s: string, m: string, i: int) {
    0 <= i && i + |m| <= |s| && s[i..i + |m|] == m
  }

  /** A marker spans no line break and repeats its first character nowhere. */
  ghost predicate Marker(m: string) {
    m != "" && '\n' !in m && forall k :: 1 <= k < |m| ==> m[k] != m[0]
  }

  predicate Tame(s: string) {
    '\n' !in s && '<' !in s
  }

  lemma PiecesMakeAMarker(b0: string, b1: string, b2: string, b3: string, b4: string, b5: string)
    requires Tame(b0) && Tame(b1) && Tame(b2) && Tame(b3) && Tame(b4) && Tame(b5)
    ensures Marker("<" + (b0 + b1 + b2 + b3 + b4 + b5))
  {
  }

  lemma BeginPiecesAreTame()
    ensures Tame(B0) && Tame(B1) && Tame(B2)
  {
  }

  lemma MoreBeginPiecesAreTame()
    ensures Tame(B3) && Tame(B4) && Tame(B5)
  {
  }

  lemma EndPiecesAreTame()
    ensures Tame(E0) && Tame(E1)
  {
  }

  /** Both real markers are markers in this sense. */
  lemma TheMarkersAreMarkers()
    ensures Marker(BEGIN) && Marker(END)
  {
    hide Tame, Marker;
    BeginPiecesAreTame();
    MoreBeginPiecesAreTame();
    PiecesMakeAMarker(B0, B1, B2, B3, B4, B5);
    EndPiecesAreTame();
    NothingIsTame();
    PiecesMakeAMarker(E0, E1, "", "", "", "");
    assert E0 + E1 + "" + "" + "" + "" == E0 + E1;
  }

  lemma NothingIsTame()
    ensures Tame("")
  {
  }

  /** `s.find(m, from)`: the first occurrence at or after `from`. */
  function Find(s: string, m: string, from: nat): (at: Option<nat>)
    ensures at.Some? ==>
              from <= at.value && Occurs(s, m, at.value) && forall i :: from <= i < at.value ==> !Occurs(s, m, i)
    ensures at.Some? ==> at.value + |m| <= |s|
    ensures at.None? ==> forall i: nat :: from <= i ==> !Occurs(s, m, i)
    decreases |s| - from
  {
    if from + |m| > |s| then None
    else if s[from..from + |m|] == m then Some(from)
    else Find(s, m, from + 1)
  }

  /** `s.count(m) == 1`, counting without overlap. */
  predicate CountsOnce(s: string, m: string) {
    var first := Find(s, m, 0);
    first.Some? && Find(s, m, first.value + |m|).None?
  }

  function StripNewlines(s: string): (t: string)
    ensures t != "" ==> t[0] != '\n' && t[|t| - 1] != '\n'
    ensures s == "" || (s[0] != '\n' && s[|s| - 1] != '\n') ==> t == s
    decreases |s|
  {
    if s == "" then s
    else if s[0] == '\n' then StripNewlines(s[1..])
    else if s[|s| - 1] == '\n' then StripNewlines(s[..|s| - 1])
    else s
  }

  function MirroredBlock(body: string, begin: string, end: string): Result<string, Drift>
  {
    if !CountsOnce(body, begin) || !CountsOnce(body, end) then Failure(MarkerCount)
    else
      var start, stop := Find(body, begin, 0).value + |begin|, Find(body, end, 0).value;
      if stop < start then Failure(MarkerOrder) else Success(StripNewlines(body[start..stop]))
  }

  /** The text up to and including the opening marker, and from the closing marker on. */
  function Before(body: string, begin: string): string
    requires CountsOnce(body, begin)
  {
    body[..Find(body, begin, 0).value + |begin|]
  }

  function After(body: string, end: string): string
    requires CountsOnce(body, end)
  {
    body[Find(body, end, 0).value..]
  }

  function WithBlock(body: string, block: string, begin: string, end: string): Result<string, Drift> {
    var shape := MirroredBlock(body, begin, end);
    if shape.Failure? then Failure(shape.error)
    else Success(Before(body, begin) + "\n" + block + "\n" + After(body, end))
  }

  // ---------------------------------------------------------------- occurrences

  lemma OverlapRepeats(s: string, m: string, p: int, i: int)
    requires Occurs(s, m, p) && Occurs(s, m, i) && p < i < p + |m|
    ensures m[i - p] == m[0]
  {
  }

  lemma StraddlerHasNewline(a: string, b: string, m: string, i: int)
    requires Occurs(a + "\n" + b, m, i) && i <= |a| < i + |m|
    ensures '\n' in m
  {
    var s := a + "\n" + b;
    assert s[i..i + |m|][|a| - i] == s[|a|] == '\n';
  }

  /** Counting once means occurring once: markers cannot overlap themselves. */
  lemma OccursOnce(s: string, m: string, p: nat)
    requires Marker(m)
    ensures CountsOnce(s, m) && Find(s, m, 0) == Some(p) <==> Occurs(s, m, p) && forall i :: Occurs(s, m, i) ==> i == p
  {
    if CountsOnce(s, m) && Find(s, m, 0) == Some(p) {
      forall i | Occurs(s, m, i) ensures i == p {
        if p < i < p + |m| { OverlapRepeats(s, m, p, i); }
      }
    }
  }

  /** A marker cannot straddle a line break. */
  lemma SplitsAtNewline(a: string, b: string, m: string, i: int)
    requires Marker(m)
    ensures Occurs(a + "\n" + b, m, i) <==> Occurs(a, m, i) || Occurs(b, m, i - |a| - 1)
  {
    var s := a + "\n" + b;
    assert s[|a|] == '\n';
    if Occurs(s, m, i) {
      if i <= |a| < i + |m| { StraddlerHasNewline(a, b, m, i); }
      if i + |m| <= |a| { assert a[i..i + |m|] == s[i..i + |m|]; }
      if |a| < i { assert b[i - |a| - 1..i - |a| - 1 + |m|] == s[i..i + |m|]; }
    }
    if Occurs(a, m, i) { assert a[i..i + |m|] == s[i..i + |m|]; }
    if Occurs(b, m, i - |a| - 1) { assert b[i - |a| - 1..i - |a| - 1 + |m|] == s[i..i + |m|]; }
  }

  lemma OccursInPrefix(s: string, n: nat, m: string, i: int)
    requires n <= |s|
    ensures Occurs(s[..n], m, i) <==> Occurs(s, m, i) && i + |m| <= n
  {
  }

  lemma OccursInSuffix(s: string, n: nat, m: string, i: int)
    requires n <= |s|
    ensures Occurs(s[n..], m, i) <==> 0 <= i && Occurs(s, m, n + i)
  {
  }

  ghost predicate Free(s: string, m: string) {
    forall i :: !Occurs(s, m, i)
  }

  /** In the rewritten body each marker stays where the kept text has it. */
  lemma MarkersAfterRewriting(body: string, start: nat, stop: nat, block: string, m: string, i: int)
    requires Marker(m) && start <= |body| && stop <= |body| && Free(block, m)
    ensures Occurs(body[..start] + "\n" + block + "\n" + body[stop..], m, i)
       <==> || (Occurs(body, m, i) && i + |m| <= start)
            || (Occurs(body, m, i - start - |block| - 2 + stop) && i >= start + |block| + 2)
  {
    hide Marker, Occurs;
    var head, tail := body[..start], body[stop..];
    assert head + "\n" + block + "\n" + tail == head + "\n" + (block + "\n" + tail);
    SplitsAtNewline(head, block + "\n" + tail, m, i);
    SplitsAtNewline(block, tail, m, i - start - 1);
    OccursInPrefix(body, start, m, i);
    OccursInSuffix(body, stop, m, i - start - |block| - 2);
  }

  lemma BeginStays(body: string, block: string, begin: string, end: string)
    requires Marker(begin) && MirroredBlock(body, begin, end).Success? && Free(block, begin)
    ensures var rewritten := Before(body, begin) + "\n" + block + "\n" + After(body, end);
            CountsOnce(rewritten, begin) && Find(rewritten, begin, 0) == Find(body, begin, 0)
  {
    hide Marker, StripNewlines, Occurs;
    var rewritten := Before(body, begin) + "\n" + block + "\n" + After(body, end);
    var p := Find(body, begin, 0).value;
    OccursOnce(body, begin, p);
    forall i ensures Occurs(rewritten, begin, i) <==> i == p {
      MarkersAfterRewriting(body, |Before(body, begin)|, Find(body, end, 0).value, block, begin, i);
    }
    OccursOnce(rewritten, begin, p);
  }

  lemma EndMoves(body: string, block: string, begin: string, end: string)
    requires Marker(end) && MirroredBlock(body, begin, end).Success? && Free(block, end)
    ensures var rewritten := Before(body, begin) + "\n" + block + "\n" + After(body, end);
            CountsOnce(rewritten, end) && Find(rewritten, end, 0) == Some(|Before(body, begin)| + |block| + 2)
  {
    hide Marker, StripNewlines, Occurs;
    var rewritten := Before(body, begin) + "\n" + block + "\n" + After(body, end);
    var q, stop := |Before(body, begin)| + |block| + 2, Find(body, end, 0).value;
    OccursOnce(body, end, stop);
    forall i ensures Occurs(rewritten, end, i) <==> i == q {
      MarkersAfterRewriting(body, |Before(body, begin)|, Find(body, end, 0).value, block, end, i);
    }
    OccursOnce(rewritten, end, q);
  }

  /**
   Writing a block and mirroring it back gives the block without its outer newlines, and
   the text outside the markers, markers included, is untouched.
   */
  lemma BlockRoundTrip(body: string, block: string, begin: string, end: string)
    requires Marker(begin) && Marker(end) && Free(block, begin) && Free(block, end)
    ensures WithBlock(body, block, begin, end).Success? <==> MirroredBlock(body, begin, end).Success?
    ensures WithBlock(body, block, begin, end).Success? ==>
              var rewritten := WithBlock(body, block, begin, end).value;
              && MirroredBlock(rewritten, begin, end) == Success(StripNewlines("\n" + block + "\n"))
              && Before(rewritten, begin) == Before(body, begin) && After(rewritten, end) == After(body, end)
  {
    hide Find, StripNewlines, Marker, Free;
    if MirroredBlock(body, begin, end).Success? {
      var head, tail := Before(body, begin), After(body, end);
      var rewritten := head + "\n" + block + "\n" + tail;
      BeginStays(body, block, begin, end);
      EndMoves(body, block, begin, end);
      assert rewritten[|head|..|head| + |block| + 2] == "\n" + block + "\n";
      assert rewritten[..|head|] == head && rewritten[|head| + |block| + 2..] == tail;
    }
  }

  lemma {:induction false} OuterNewlinesGo(block: string)
    requires block != "" ==> block[0] != '\n' && block[|block| - 1] != '\n'
    ensures StripNewlines("\n" + block + "\n") == block
  {
    var s := "\n" + block + "\n";
    assert s[1..] == block + "\n";
    var t := block + "\n";
    if block == "" { assert t[1..] == ""; } else { assert t[..|t| - 1] == block; }
  }

  ghost predicate OnlyAt(s: string, m: string, p: nat) {
    Occurs(s, m, p) && forall i :: Occurs(s, m, i) ==> i == p
  }

  lemma OnlyAtCounts(s: string, m: string, p: nat)
    requires Marker(m) && OnlyAt(s, m, p)
    ensures CountsOnce(s, m) && Find(s, m, 0) == Some(p)
  {
    OccursOnce(s, m, p);
  }

  lemma CountsOnlyAt(s: string, m: string)
    requires Marker(m) && CountsOnce(s, m)
    ensures OnlyAt(s, m, Find(s, m, 0).value)
  {
    OccursOnce(s, m, Find(s, m, 0).value);
  }

  /**
   A block can be read exactly when each marker occurs just once and the closing one does not
   begin before the opening one ends; it is what stands between them, without its outer newlines.
   */
  lemma BlocksReadExactly(body: string, begin: string, end: string, block: string)
    requires Marker(begin) && Marker(end)
    ensures MirroredBlock(body, begin, end) == Success(block) <==>
              exists p: nat, q: nat ::
                && OnlyAt(body, begin, p) && OnlyAt(body, end, q) && p + |begin| <= q <= |body|
                && block == StripNewlines(body[p + |begin|..q])
  {
    hide Marker, StripNewlines, OnlyAt, Find;
    if MirroredBlock(body, begin, end).Success? {
      CountsOnlyAt(body, begin);
      CountsOnlyAt(body, end);
    }
    if p: nat, q: nat :| OnlyAt(body, begin, p) && OnlyAt(body, end, q) && p + |begin| <= q <= |body|
                         && block == StripNewlines(body[p + |begin|..q]) {
      OnlyAtCounts(body, begin, p);
      OnlyAtCounts(body, end, q);
    }
  }

  predicate Newlines(s: string) {
    forall k :: 0 <= k < |s| ==> s[k] == '\n'
  }

  /** Stripping takes the newlines around a text and nothing else. */
  lemma {:induction false} OnlyOuterNewlinesGo(a: string, text: string, b: string)
    requires Newlines(a) && Newlines(b) && (text != "" ==> text[0] != '\n' && text[|text| - 1] != '\n')
    ensures StripNewlines(a + text + b) == text
    decreases |a| + |b|
  {
    var s := a + text + b;
    if a != "" {
      assert s[0] == a[0] && s[1..] == a[1..] + text + b;
      OnlyOuterNewlinesGo(a[1..], text, b);
    } else if b != "" {
      var n := |b| - 1;
      assert s == text + b && s[|s| - 1] == b[n] && s[..|s| - 1] == a + text + b[..n];
      if s[0] == '\n' {
        assert text == "" && s[1..] == a + text + b[1..];
        OnlyOuterNewlinesGo(a, text, b[1..]);
      } else {
        OnlyOuterNewlinesGo(a, text, b[..n]);
      }
    } else {
      assert s == text;
    }
  }

  /** The last block written is the one that stays: rewriting forgets the earlier block. */
  lemma RewritingForgets(body: string, first: string, second: string, begin: string, end: string)
    requires Marker(begin) && Marker(end) && Free(first, begin) && Free(first, end)
             && MirroredBlock(body, begin, end).Success?
    ensures WithBlock(WithBlock(body, first, begin, end).value, second, begin, end) ==
              WithBlock(body, second, begin, end)
  {
    BlockRoundTrip(body, first, begin, end);
  }
}
