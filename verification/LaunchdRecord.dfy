/**
 The parser of `launchctl print` records (deploy/service_readiness.py,
 `parse_pid_record`), over the lines of a decoded record.
 */
module LaunchdRecord {
  import opened Wrappers
  import opened Text
  import ServiceProtocol

  const PREFIX := "\tpid = "

  datatype Reading = Present(pid: nat) | Absent
  datatype LaunchdError = LaunchdError

  function Stripped(line: string): string {
    Strip(line, PySpace)
  }

  predicate Opens(line: string) {
    var s := Stripped(line);
    s != [] && s[|s| - 1] == '{'
  }

  predicate Closes(line: string) {
    Stripped(line) == "}"
  }

  /** The line starts like a pid entry: `pid`, any white space, `=`. */
  predicate LooksLikePid(line: string) {
    var s := Stripped(line);
    "pid" <= s && var rest := TrimLeft(s[3..], PySpace); rest != [] && rest[0] == '='
  }

  /** The exact form of a direct child pid, and the number it carries. */
  function PidOf(line: string): Option<nat> {
    if !(PREFIX <= line) then None
    else
      var digits := line[|PREFIX|..];
      if 1 <= |digits| <= 10 && (forall i :: 0 <= i < |digits| ==> Digit(digits[i])) && digits[0] != '0'
      then Some(Decimal(digits)) else None
  }

  // ---------------------------------------------------------------- braces

  function Delta(line: string): int {
    if Opens(line) then 1 else if Closes(line) then -1 else 0
  }

  /** The brace depth in front of line `n`, inside the root's own brace. */
  function Depth(lines: seq<string>, n: nat): int
    requires n <= |lines|
  {
    if n == 0 then 1 else Depth(lines, n - 1) + Delta(lines[n - 1])
  }

  /** The pids on top-level lines before `n`, unless one of those lines is malformed. */
  function TopPids(lines: seq<string>, n: nat): Option<seq<nat>>
    requires n <= |lines|
  {
    if n == 0 then Some([])
    else
      var before := TopPids(lines, n - 1);
      if before.None? || Depth(lines, n - 1) != 1 || !LooksLikePid(lines[n - 1]) then before
      else if PidOf(lines[n - 1]).None? then None
      else Some(before.value + [PidOf(lines[n - 1]).value])
  }

  /** Line `c` is the one that closes the root. */
  ghost predicate ClosesRootAt(lines: seq<string>, c: nat) {
    c < |lines| && Depth(lines, c + 1) == 0 && forall k :: 0 <= k <= c ==> Depth(lines, k) >= 1
  }

  ghost predicate BlankFrom(lines: seq<string>, n: nat) {
    forall k :: n <= k < |lines| ==> Stripped(lines[k]) == ""
  }

  predicate PidsRead(pids: seq<nat>, allowAbsent: bool, r: Reading) {
    match r
    case Absent => allowAbsent && pids == []
    case Present(p) => pids == [p] && 1 <= p <= ServiceProtocol.MAX_PID
  }

  ghost predicate Accepts(lines: seq<string>, allowAbsent: bool, r: Reading) {
    exists c: nat :: ClosesRootAt(lines, c) && BlankFrom(lines, c + 1)
                     && TopPids(lines, c).Some? && PidsRead(TopPids(lines, c).value, allowAbsent, r)
  }

  lemma RootClosesOnce(lines: seq<string>, c: nat, d: nat)
    requires ClosesRootAt(lines, c) && ClosesRootAt(lines, d)
    ensures c == d
  {
    assert Depth(lines, c + 1) == 0 && Depth(lines, d + 1) == 0;
  }

  lemma {:induction false} MalformedStays(lines: seq<string>, m: nat, n: nat)
    requires m <= n <= |lines| && TopPids(lines, m).None?
    ensures TopPids(lines, n).None?
    decreases n - m
  {
    hide Depth, LooksLikePid, PidOf;
    if m < n { MalformedStays(lines, m + 1, n); }
  }

  /** A root still open after `n` lines closes later or never. */
  lemma OpenSoFar(lines: seq<string>, n: nat, c: nat)
    requires n <= |lines| && (forall k :: 0 <= k <= n ==> Depth(lines, k) >= 1) && ClosesRootAt(lines, c)
    ensures n <= c
  {
  }

  /** `parse_pid_record`: accepted exactly when the braces, the trailing text and the top-level pids say so. */
  method ParsePidRecord(lines: seq<string>, root: string, allowAbsent: bool) returns (r: Result<Reading, LaunchdError>)
    ensures r.Success? ==> lines != [] && lines[0] == root && Accepts(lines[1..], allowAbsent, r.value)
    ensures r.Failure? ==> lines == [] || lines[0] != root || forall v :: !Accepts(lines[1..], allowAbsent, v)
  {
    hide LooksLikePid, PidOf, Opens, Closes, Stripped;
    if lines == [] || lines[0] != root { return Failure(LaunchdError); }
    var body := lines[1..];
    var depth := 1;
    var pids: seq<nat> := [];
    var closed := false;
    ghost var at: nat := 0;
    for i := 0 to |body|
      invariant closed ==> at < i
      invariant TopPids(body, if closed then at else i) == Some(pids)
      invariant !closed ==> depth == Depth(body, i) && forall k :: 0 <= k <= i ==> Depth(body, k) >= 1
      invariant closed ==> at < i && ClosesRootAt(body, at) && forall k :: at < k < i ==> Stripped(body[k]) == ""
    {
      var stripped := Stripped(body[i]);
      ClosingLineIsNoPid(body[i]);
      if closed {
        if stripped != "" { Rejected(body, allowAbsent, at); return Failure(LaunchdError); }
        continue;
      }
      if depth == 1 && LooksLikePid(body[i]) {
        var pid := PidOf(body[i]);
        if pid.None? { RejectedPid(body, allowAbsent, i); return Failure(LaunchdError); }
        pids := pids + [pid.value];
      }
      if Opens(body[i]) { depth := depth + 1; }
      if Closes(body[i]) {
        depth := depth - 1;
        closed := depth == 0;
        if closed { at := i; }
      }
    }
    if closed {
      forall c | ClosesRootAt(body, c) ensures c == at { RootClosesOnce(body, c, at); }
      if |pids| == 0 && allowAbsent { return Success(Absent); }
      if |pids| == 1 && 1 <= pids[0] <= ServiceProtocol.MAX_PID { return Success(Present(pids[0])); }
    } else {
      forall c ensures !ClosesRootAt(body, c) {
        if ClosesRootAt(body, c) { OpenSoFar(body, |body|, c); assert false; }
      }
    }
    return Failure(LaunchdError);
  }

  lemma ClosingLineIsNoPid(line: string)
    ensures Closes(line) ==> !LooksLikePid(line) && !Opens(line)
  {
  }

  lemma Rejected(body: seq<string>, allowAbsent: bool, at: nat)
    requires ClosesRootAt(body, at) && !BlankFrom(body, at + 1)
    ensures forall v :: !Accepts(body, allowAbsent, v)
  {
  }

  lemma RejectedPid(body: seq<string>, allowAbsent: bool, i: nat)
    requires i < |body| && (forall k :: 0 <= k <= i ==> Depth(body, k) >= 1) && Depth(body, i) == 1
    requires LooksLikePid(body[i]) && PidOf(body[i]).None?
    ensures forall v :: !Accepts(body, allowAbsent, v)
  {
    hide LooksLikePid, PidOf, TopPids, Depth, PidsRead;
    forall c | ClosesRootAt(body, c) ensures TopPids(body, c).None? { MalformedWhereItCloses(body, i, c); }
  }

  lemma MalformedWhereItCloses(body: seq<string>, i: nat, c: nat)
    requires i < |body| && (forall k :: 0 <= k <= i ==> Depth(body, k) >= 1) && Depth(body, i) == 1
    requires LooksLikePid(body[i]) && PidOf(body[i]).None? && ClosesRootAt(body, c)
    ensures TopPids(body, c).None?
  {
    hide LooksLikePid, PidOf, Opens, Closes, Stripped;
    ClosingLineIsNoPid(body[i]);
    OpenSoFar(body, i + 1, c);
    MalformedStays(body, i + 1, c);
  }

  // ---------------------------------------------------------------- records as trees

  /** What `launchctl print` shows inside the root: lines, and brace-delimited blocks of entries. */
  datatype Entry = Leaf(text: string) | Block(header: string, body: seq<Entry>, footer: string)

  ghost predicate Printable(e: Entry) {
    match e
    case Leaf(text) => !Opens(text) && !Closes(text)
    case Block(header, body, footer) => Opens(header) && Closes(footer) && forall b :: b in body ==> Printable(b)
  }

  ghost predicate AllPrintable(es: seq<Entry>) {
    forall e :: e in es ==> Printable(e)
  }

  function Render(es: seq<Entry>): seq<string> {
    if es == [] then []
    else match es[0]
         case Leaf(text) => [text] + Render(es[1..])
         case Block(header, body, footer) => [header] + Render(body) + [footer] + Render(es[1..])
  }

  /** The lines at the record's own level; nested lines are not among them. */
  function TopLines(es: seq<Entry>): seq<string> {
    if es == [] then []
    else [if es[0].Leaf? then es[0].text else es[0].header] + TopLines(es[1..])
  }

  function PidsOn(lines: seq<string>, before: Option<seq<nat>>): Option<seq<nat>> {
    if lines == [] then before
    else PidsOn(lines[1..],
                if before.None? || !LooksLikePid(lines[0]) then before
                else if PidOf(lines[0]).None? then None else Some(before.value + [PidOf(lines[0]).value]))
  }

  lemma {:induction false} PrefixDecides(a: seq<string>, b: seq<string>, n: nat)
    requires n <= |a|
    ensures Depth(a + b, n) == Depth(a, n) && TopPids(a + b, n) == TopPids(a, n)
  {
    hide Delta, LooksLikePid, PidOf;
    if n > 0 {
      PrefixDecides(a, b, n - 1);
      assert (a + b)[n - 1] == a[n - 1];
    }
  }

  /** One more line after `pre`. */
  lemma AddLine(pre: seq<string>, line: string)
    ensures Depth(pre + [line], |pre| + 1) == Depth(pre, |pre|) + Delta(line)
    ensures TopPids(pre + [line], |pre| + 1) ==
              if Depth(pre, |pre|) == 1 then PidsOn([line], TopPids(pre, |pre|)) else TopPids(pre, |pre|)
  {
    hide Delta, LooksLikePid, PidOf;
    PrefixDecides(pre, [line], |pre|);
    assert (pre + [line])[|pre|] == line && [line][1..] == [];
  }

  ghost predicate StaysAbove(lines: seq<string>, from: nat, floor: int) {
    forall k :: from <= k <= |lines| ==> Depth(lines, k) >= floor
  }

  lemma StaysAboveExtends(a: seq<string>, b: seq<string>, from: nat, floor: int)
    requires from <= |a| && StaysAbove(a, from, floor) && StaysAbove(a + b, |a|, floor)
    ensures StaysAbove(a + b, from, floor)
  {
    hide Delta;
    forall k | from <= k <= |a + b| ensures Depth(a + b, k) >= floor {
      if k <= |a| { PrefixDecides(a, b, k); }
    }
  }

  /** Reading rendered entries at any depth returns to that depth, and sees pids only at depth one. */
  lemma {:induction false} ReadEntries(pre: seq<string>, es: seq<Entry>)
    requires AllPrintable(es) && Depth(pre, |pre|) >= 1
    ensures var lines := pre + Render(es);
            && Depth(lines, |lines|) == Depth(pre, |pre|) && StaysAbove(lines, |pre|, Depth(pre, |pre|))
            && TopPids(lines, |lines|) ==
               if Depth(pre, |pre|) == 1 then PidsOn(TopLines(es), TopPids(pre, |pre|)) else TopPids(pre, |pre|)
    decreases es, 0
  {
    hide LooksLikePid, PidOf, Opens, Closes, Delta;
    if es == [] {
      assert pre + Render(es) == pre;
      return;
    }
    var base := Depth(pre, |pre|);
    assert Printable(es[0]) && AllPrintable(es[1..]);
    var after := ReadEntry(pre, es[0], es[1..]);
    ReadEntries(after, es[1..]);
    assert after + Render(es[1..]) == pre + Render(es);
    StaysAboveExtends(after, Render(es[1..]), |pre|, base);
    PidsOnHead(TopLines(es), TopPids(pre, |pre|));
    assert TopLines(es)[..1] == [TopLines(es)[0]] && TopLines(es)[1..] == TopLines(es[1..]);
  }

  lemma PidsOnHead(lines: seq<string>, before: Option<seq<nat>>)
    requires lines != []
    ensures PidsOn(lines, before) == PidsOn(lines[1..], PidsOn([lines[0]], before))
  {
  }

  lemma {:induction false} ReadEntry(pre: seq<string>, e: Entry, rest: seq<Entry>) returns (after: seq<string>)
    requires Printable(e) && Depth(pre, |pre|) >= 1
    ensures after + Render(rest) == pre + Render([e] + rest) && |pre| <= |after|
    ensures Depth(after, |after|) == Depth(pre, |pre|) && StaysAbove(after, |pre|, Depth(pre, |pre|))
    ensures TopPids(after, |after|) ==
              if Depth(pre, |pre|) == 1 then PidsOn([if e.Leaf? then e.text else e.header], TopPids(pre, |pre|))
              else TopPids(pre, |pre|)
    decreases e, 0
  {
    hide LooksLikePid, PidOf, PidsOn, Opens, Closes;
    var base := Depth(pre, |pre|);
    assert ([e] + rest)[1..] == rest;
    match e
    case Leaf(text) =>
      AddLine(pre, text);
      after := pre + [text];
      PrefixDecides(pre, [text], |pre|);
      assert after + Render(rest) == pre + Render([e] + rest);
    case Block(header, body, footer) =>
      ReadBlock(pre, header, body, footer);
      after := pre + [header] + Render(body) + [footer];
      assert after + Render(rest) == pre + Render([e] + rest);
  }

  lemma {:induction false} ReadBlock(pre: seq<string>, header: string, body: seq<Entry>, footer: string)
    requires Opens(header) && Closes(footer) && AllPrintable(body) && Depth(pre, |pre|) >= 1
    ensures var after := pre + [header] + Render(body) + [footer];
            && Depth(after, |after|) == Depth(pre, |pre|) && StaysAbove(after, |pre|, Depth(pre, |pre|))
            && TopPids(after, |after|) ==
               if Depth(pre, |pre|) == 1 then PidsOn([header], TopPids(pre, |pre|)) else TopPids(pre, |pre|)
    decreases body, 1
  {
    hide LooksLikePid, PidOf, PidsOn, Opens, Closes;
    var base := Depth(pre, |pre|);
    ClosingLineIsNoPid(footer);
    AddLine(pre, header);
    var entered := pre + [header];
    PrefixDecides(pre, [header], |pre|);
    ReadEntries(entered, body);
    var inner := entered + Render(body);
    AddLine(inner, footer);
    StaysAboveExtends(entered, Render(body), |pre|, base);
    PrefixDecides(inner, [footer], |inner|);
    StaysAboveExtends(inner, [footer], |pre|, base);
  }

  lemma PrefixOfPrefix(lines: seq<string>, n: nat, k: nat)
    requires k <= n <= |lines|
    ensures Depth(lines[..n], k) == Depth(lines, k) && TopPids(lines[..n], k) == TopPids(lines, k)
  {
  }

  /**
   On a rendered record the parser reads the record's own pid lines and nothing nested:
   it accepts exactly when they are well formed and name one pid, or none where that is allowed.
   */
  lemma RenderedRecordsAreRead(es: seq<Entry>, footer: string, blanks: seq<string>, allowAbsent: bool, r: Reading)
    requires AllPrintable(es) && Closes(footer) && BlankFrom(blanks, 0)
    ensures Accepts(Render(es) + [footer] + blanks, allowAbsent, r)
       <==> PidsOn(TopLines(es), Some([])).Some? && PidsRead(PidsOn(TopLines(es), Some([])).value, allowAbsent, r)
  {
    hide LooksLikePid, PidOf, PidsOn, Opens, Closes, PidsRead;
    var lines, c := Render(es) + [footer] + blanks, |Render(es)|;
    RootClosesAfter(Render(es), es, footer, blanks);
    forall d | ClosesRootAt(lines, d) ensures d == c { RootClosesOnce(lines, c, d); }
  }

  lemma RootClosesAfter(rendered: seq<string>, es: seq<Entry>, footer: string, blanks: seq<string>)
    requires rendered == Render(es) && AllPrintable(es) && Closes(footer) && BlankFrom(blanks, 0)
    ensures var lines := rendered + [footer] + blanks;
            && ClosesRootAt(lines, |rendered|) && BlankFrom(lines, |rendered| + 1)
            && TopPids(lines, |rendered|) == PidsOn(TopLines(es), Some([]))
  {
    hide LooksLikePid, PidOf, PidsOn, Opens, Closes, Render;
    var lines, c := rendered + [footer] + blanks, |rendered|;
    ReadEntries([], es);
    assert [] + rendered == rendered;
    assert rendered + ([footer] + blanks) == lines;
    forall k | 0 <= k <= c ensures Depth(lines, k) >= 1 { PrefixDecides(rendered, [footer] + blanks, k); }
    PrefixDecides(rendered, [footer] + blanks, c);
    ClosingLineIsNoPid(footer);
    assert lines[c] == footer && Depth(lines, c + 1) == Depth(lines, c) + Delta(footer);
  }

  // ---------------------------------------------------------------- and only trees are accepted

  lemma {:induction false} SuffixDepth(lines: seq<string>, j: nat, k: nat)
    requires j + k <= |lines|
    ensures Depth(lines[j..], k) == Depth(lines, j + k) - Depth(lines, j) + 1
    decreases k
  {
    hide Delta;
    if k > 0 { SuffixDepth(lines, j, k - 1); }
  }

  ghost predicate Balanced(lines: seq<string>) {
    Depth(lines, |lines|) == 1 && forall k :: 0 <= k <= |lines| ==> Depth(lines, k) >= 1
  }

  lemma SliceDepth(lines: seq<string>, lo: nat, hi: nat, k: nat)
    requires lo <= hi <= |lines| && k <= hi - lo
    ensures Depth(lines[lo..hi], k) == Depth(lines, lo + k) - Depth(lines, lo) + 1
  {
    hide *;
    PrefixDecides(lines[lo..hi], lines[hi..], k);
    CutTwice(lines, lo, hi);
    SuffixDepth(lines, lo, k);
  }

  lemma CutTwice(lines: seq<string>, lo: nat, hi: nat)
    requires lo <= hi <= |lines|
    ensures lines[lo..hi] + lines[hi..] == lines[lo..]
  {
  }

  lemma SliceIsBalanced(lines: seq<string>, lo: nat, hi: nat)
    requires lo <= hi <= |lines| && Depth(lines, hi) == Depth(lines, lo)
    requires forall k :: lo <= k <= hi ==> Depth(lines, k) >= Depth(lines, lo)
    ensures Balanced(lines[lo..hi])
  {
    hide Depth;
    forall k | 0 <= k <= hi - lo ensures Depth(lines[lo..hi], k) >= 1 { SliceDepth(lines, lo, hi, k); }
    SliceDepth(lines, lo, hi, hi - lo);
  }

  /** Where the block opened by the first line returns to the outer depth. */
  lemma MatchingFooter(lines: seq<string>) returns (m: nat)
    requires Balanced(lines) && lines != [] && Depth(lines, 1) == 2
    ensures 1 <= m < |lines| && Depth(lines, m) == 2 && Depth(lines, m + 1) == 1 && Closes(lines[m])
    ensures forall k :: 1 <= k <= m ==> Depth(lines, k) >= 2
  {
    hide Opens, Closes;
    m := 1;
    while Depth(lines, m + 1) >= 2
      invariant 1 <= m < |lines| && forall k :: 1 <= k <= m ==> Depth(lines, k) >= 2
      decreases |lines| - m
    {
      m := m + 1;
    }
  }

  lemma RenderFirst(e: Entry, rest: seq<Entry>)
    ensures Render([e] + rest) ==
              if e.Leaf? then [e.text] + Render(rest) else [e.header] + Render(e.body) + [e.footer] + Render(rest)
    ensures AllPrintable([e] + rest) <==> Printable(e) && AllPrintable(rest)
  {
  }

  lemma RenderNone()
    ensures Render([]) == []
  {
  }

  lemma {:induction false} BalancedIsRendered(lines: seq<string>) returns (es: seq<Entry>)
    requires Balanced(lines)
    ensures AllPrintable(es) && Render(es) == lines
    decreases |lines|
  {
    hide Opens, Closes, Render;
    RenderNone();
    if lines == [] { return []; }
    assert Depth(lines, 1) == 1 + Delta(lines[0]) && Depth(lines, 0) == 1;
    if Opens(lines[0]) {
      var m := MatchingFooter(lines);
      SliceIsBalanced(lines, 1, m);
      SliceIsBalanced(lines, m + 1, |lines|);
      var body := BalancedIsRendered(lines[1..m]);
      assert lines[m + 1..|lines|] == lines[m + 1..];
      var rest := BalancedIsRendered(lines[m + 1..]);
      RenderFirst(Block(lines[0], body, lines[m]), rest);
      assert lines == [lines[0]] + lines[1..m] + [lines[m]] + lines[m + 1..];
      es := [Block(lines[0], body, lines[m])] + rest;
    } else {
      SliceIsBalanced(lines, 1, |lines|);
      assert lines[1..|lines|] == lines[1..];
      var rest := BalancedIsRendered(lines[1..]);
      RenderFirst(Leaf(lines[0]), rest);
      assert lines == [lines[0]] + lines[1..];
      es := [Leaf(lines[0])] + rest;
    }
  }

  lemma BeforeTheClose(lines: seq<string>, c: nat)
    requires ClosesRootAt(lines, c)
    ensures Balanced(lines[..c]) && Closes(lines[c])
  {
    hide Opens, Closes;
    forall k | 0 <= k <= c ensures Depth(lines[..c], k) == Depth(lines, k) { PrefixOfPrefix(lines, c, k); }
    assert Depth(lines, c + 1) == Depth(lines, c) + Delta(lines[c]);
  }

  /** Whatever the parser accepts is a rendered record followed by blank lines. */
  lemma AcceptedIsARenderedRecord(lines: seq<string>, allowAbsent: bool, r: Reading)
    requires Accepts(lines, allowAbsent, r)
    ensures exists es, footer, blanks :: AllPrintable(es) && Closes(footer) && BlankFrom(blanks, 0)
                                         && lines == Render(es) + [footer] + blanks
  {
    hide Opens, Closes, LooksLikePid, PidOf, PidsRead, TopPids, Depth, Balanced, Render, Stripped;
    var c: nat :| ClosesRootAt(lines, c) && BlankFrom(lines, c + 1);
    BeforeTheClose(lines, c);
    var es := BalancedIsRendered(lines[..c]);
    var blanks := lines[c + 1..];
    assert lines == Render(es) + [lines[c]] + blanks;
    assert BlankFrom(blanks, 0);
  }
}
