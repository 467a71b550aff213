/** The bracket matcher that delimits macro arguments (scripts/check-privacy.py, `macro_end`). */
module MacroEnd {

  predicate Opener(c: char) {
    c == '(' || c == '[' || c == '{'
  }

  predicate Closer(c: char) {
    c == ')' || c == ']' || c == '}'
  }

  function Pair(c: char): (d: char)
    requires Opener(c)
    ensures Closer(d) && [c, d] in ["()", "[]", "{}"]
  {
    if c == '(' then ')' else if c == '[' then ']' else '}'
  }

  /** The scan from `i` with the closers still expected, innermost last. */
  function Scan(s: string, i: nat, expected: seq<char>): (end: nat)
    requires i <= |s| && expected != []
    ensures i <= end <= |s|
    ensures end < |s| ==> s[end] == expected[0]
    decreases |s| - i
  {
    if i == |s| then i
    else if Opener(s[i]) then Scan(s, i + 1, expected + [Pair(s[i])])
    else if s[i] == expected[|expected| - 1] then
      if |expected| == 1 then i else Scan(s, i + 1, expected[..|expected| - 1])
    else Scan(s, i + 1, expected)
  }

  /** `macro_end`. */
  method FindMacroEnd(masked: string, opening: nat) returns (end: nat)
    requires opening < |masked| && Opener(masked[opening])
    ensures end == Scan(masked, opening + 1, [Pair(masked[opening])])
  {
    var stack := [Pair(masked[opening])];
    var index := opening + 1;
    while index < |masked|
      invariant index <= |masked| && stack != []
      invariant Scan(masked, index, stack) == Scan(masked, opening + 1, [Pair(masked[opening])])
    {
      var current := masked[index];
      if Opener(current) {
        stack := stack + [Pair(current)];
      } else if current == stack[|stack| - 1] {
        stack := stack[..|stack| - 1];
        if stack == [] { return index; }
      }
      index := index + 1;
    }
    return |masked|;
  }

  // ---------------------------------------------------------------- balanced text

  /** Balanced text: plain characters and bracketed groups. */
  datatype Piece = Plain(c: char) | Group(open: char, body: seq<Piece>)

  ghost predicate WellFormed(p: Piece) {
    match p
    case Plain(c) => !Opener(c) && !Closer(c)
    case Group(open, body) => Opener(open) && forall q :: q in body ==> WellFormed(q)
  }

  ghost predicate AllWellFormed(ps: seq<Piece>) {
    forall p :: p in ps ==> WellFormed(p)
  }

  function Render(ps: seq<Piece>): string {
    if ps == [] then ""
    else match ps[0]
         case Plain(c) => [c] + Render(ps[1..])
         case Group(open, body) => if Opener(open) then [open] + Render(body) + [Pair(open)] + Render(ps[1..]) else ""
  }

  lemma ScanPlain(s: string, i: nat, expected: seq<char>)
    requires i < |s| && expected != [] && !Opener(s[i]) && !Closer(s[i]) && Closer(expected[|expected| - 1])
    ensures Scan(s, i, expected) == Scan(s, i + 1, expected)
  {
  }

  lemma ScanOpen(s: string, i: nat, expected: seq<char>)
    requires i < |s| && expected != [] && Opener(s[i])
    ensures Scan(s, i, expected) == Scan(s, i + 1, expected + [Pair(s[i])])
  {
  }

  lemma ScanClose(s: string, i: nat, expected: seq<char>, closer: char)
    requires i < |s| && expected != [] && Closer(closer) && s[i] == closer
    ensures Scan(s, i, expected + [closer]) == Scan(s, i + 1, expected)
  {
  }

  /** `t` stands in `s` at `i`. */
  ghost predicate Stands(s: string, i: nat, t: string) {
    i + |t| <= |s| && s[i..i + |t|] == t
  }

  lemma StandsSplits(s: string, i: nat, a: string, b: string)
    requires Stands(s, i, a + b)
    ensures Stands(s, i, a) && Stands(s, i + |a|, b)
  {
    assert s[i..i + |a|] == (a + b)[..|a|];
    assert s[i + |a|..i + |a| + |b|] == (a + b)[|a|..];
  }

  lemma StandsAt(s: string, i: nat, c: char)
    requires Stands(s, i, [c])
    ensures i < |s| && s[i] == c
  {
  }

  function Bracketed(open: char, body: seq<Piece>): string
    requires Opener(open)
  {
    [open] + Render(body) + [Pair(open)]
  }

  function One(p: Piece): string
    requires WellFormed(p)
  {
    match p
    case Plain(c) => [c]
    case Group(open, body) => Bracketed(open, body)
  }

  lemma RenderFirst(ps: seq<Piece>)
    requires ps != [] && WellFormed(ps[0])
    ensures Render(ps) == One(ps[0]) + Render(ps[1..])
  {
  }

  lemma RenderNone()
    ensures Render([]) == ""
  {
  }

  /** Scanning balanced text leaves the expected closers as they were. */
  lemma {:induction false} BalancedIsSkipped(s: string, i: nat, ps: seq<Piece>, expected: seq<char>)
    requires AllWellFormed(ps) && expected != [] && Closer(expected[|expected| - 1]) && Stands(s, i, Render(ps))
    ensures i + |Render(ps)| <= |s| && Scan(s, i, expected) == Scan(s, i + |Render(ps)|, expected)
    decreases ps, 0
  {
    hide Scan, Opener, Closer, Pair, Render, Stands, One, WellFormed, AllWellFormed;
    StandsEnds(s, i, Render(ps));
    RenderNone();
    if ps != [] {
      FirstIsWellFormed(ps);
      RenderFirst(ps);
      StandsSplits(s, i, One(ps[0]), Render(ps[1..]));
      PieceIsSkipped(s, i, ps[0], expected);
      BalancedIsSkipped(s, i + |One(ps[0])|, ps[1..], expected);
    }
  }

  lemma FirstIsWellFormed(ps: seq<Piece>)
    requires ps != [] && AllWellFormed(ps)
    ensures WellFormed(ps[0]) && AllWellFormed(ps[1..])
  {
  }

  lemma StandsEnds(s: string, i: nat, t: string)
    requires Stands(s, i, t)
    ensures i + |t| <= |s|
  {
  }

  lemma {:induction false} PieceIsSkipped(s: string, i: nat, p: Piece, expected: seq<char>)
    requires WellFormed(p) && expected != [] && Closer(expected[|expected| - 1]) && Stands(s, i, One(p))
    ensures i + |One(p)| <= |s| && Scan(s, i, expected) == Scan(s, i + |One(p)|, expected)
    decreases p, 3
  {
    hide Scan, Opener, Closer, Pair, Render, Stands, Bracketed;
    match p
    case Plain(c) =>
      StandsAt(s, i, c);
      ScanPlain(s, i, expected);
    case Group(open, body) =>
      GroupIsSkipped(s, i, open, body, expected);
  }

  lemma {:induction false} GroupIsSkipped(s: string, i: nat, open: char, body: seq<Piece>, expected: seq<char>)
    requires Opener(open) && AllWellFormed(body) && expected != [] && Stands(s, i, Bracketed(open, body))
    ensures i + |Bracketed(open, body)| <= |s|
    ensures Scan(s, i, expected) == Scan(s, i + |Bracketed(open, body)|, expected)
    decreases body, 2
  {
    var closer := InsideTheGroup(s, i, open, body, expected);
    hide Scan, Opener, Closer, Render, Stands;
    ScanOpen(s, i, expected);
    ScanClose(s, closer, expected, Pair(open));
  }

  /** From just inside a group, with any outer closers expected, the scan reaches the group's own closer. */
  lemma {:induction false} InsideTheGroup(s: string, i: nat, open: char, body: seq<Piece>, outer: seq<char>)
    returns (closer: nat)
    requires Opener(open) && AllWellFormed(body) && Stands(s, i, Bracketed(open, body))
    ensures closer == i + 1 + |Render(body)| && |Bracketed(open, body)| == |Render(body)| + 2
    ensures closer < |s| && s[i] == open && s[closer] == Pair(open)
    ensures Scan(s, i + 1, outer + [Pair(open)]) == Scan(s, closer, outer + [Pair(open)])
    decreases body, 1
  {
    hide Scan, Opener, Closer, Pair, Render, Stands;
    closer := i + 1 + |Render(body)|;
    StandsSplits(s, i, [open] + Render(body), [Pair(open)]);
    StandsSplits(s, i, [open], Render(body));
    StandsAt(s, i, open);
    StandsAt(s, closer, Pair(open));
    BalancedIsSkipped(s, i + 1, body, outer + [Pair(open)]);
  }

  /** On a balanced group the matcher returns the group's own closing bracket, whatever surrounds it. */
  lemma MatchesTheGroup(s: string, opening: nat, open: char, body: seq<Piece>)
    requires Opener(open) && AllWellFormed(body) && Stands(s, opening, Bracketed(open, body))
    ensures opening + 1 <= |s| && Scan(s, opening + 1, [Pair(open)]) == opening + |Bracketed(open, body)| - 1
  {
    hide Render, Stands;
    var closer := InsideTheGroup(s, opening, open, body, []);
    assert [] + [Pair(open)] == [Pair(open)];
    assert !Opener(s[closer]);
  }
}
