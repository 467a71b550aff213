/**
 The Liquid scanner for Pages Markdown (scripts/check-pages-liquid.py, `scan_text`).

 Positions are offsets into the whole text; a line is the stretch up to the next line
 feed, and no marker can extend over one.
 */
module LiquidScan {
  import opened Wrappers
  import opened Text

  const RAW := "raw"
  const ENDRAW := "endraw"

  predicate Space(c: char) {
    PySpace(c) && c != '\n'
  }

  predicate Lit(s: string, i: nat, lit: string) {
    i + |lit| <= |s| && s[i..i + |lit|] == lit
  }

  function SkipSpace(s: string, i: nat): (j: nat)
    ensures i <= j && (i <= |s| ==> j <= |s|)
    ensures forall k :: i <= k < j ==> k < |s| && s[k] != '\n' && s[k] != '{'
    decreases |s| - i
  {
    if i < |s| && Space(s[i]) then SkipSpace(s, i + 1) else i
  }

  function SkipDash(s: string, i: nat): nat {
    if Lit(s, i, "-") then i + 1 else i
  }

  /** The end of a `{% word %}` marker that starts at `i`, written with optional dashes and spaces. */
  function Marker(s: string, i: nat, word: string): Option<nat> {
    if !Lit(s, i, "{%") then None
    else
      var name := SkipSpace(s, SkipDash(s, i + 2));
      if !Lit(s, name, word) then None
      else
        var close := SkipDash(s, SkipSpace(s, name + |word|));
        if Lit(s, close, "%}") then Some(close + 2) else None
  }

  /** A Liquid opener starts here. */
  predicate Token(s: string, i: nat) {
    Lit(s, i, "{%") || Lit(s, i, "{{")
  }

  lemma LitCharacters(s: string, i: nat, lit: string)
    requires Lit(s, i, lit)
    ensures forall k :: i <= k < i + |lit| ==> s[k] == lit[k - i]
  {
  }

  /** No line break and no opening brace in the stretch. */
  ghost predicate Plain(s: string, from: nat, to: nat) {
    from <= to && forall k :: from <= k < to ==> Ordinary(s, k)
  }

  ghost predicate Ordinary(s: string, k: nat) {
    k < |s| && s[k] != '\n' && s[k] != '{'
  }

  lemma LitIsPlain(s: string, i: nat, lit: string)
    requires Lit(s, i, lit) && '\n' !in lit && '{' !in lit
    ensures Plain(s, i, i + |lit|)
  {
  }

  lemma DashAndSpaceArePlain(s: string, i: nat)
    ensures Plain(s, i, SkipDash(s, i)) && Plain(s, i, SkipSpace(s, i))
  {
  }

  lemma PlainJoin(s: string, a: nat, b: nat, c: nat)
    requires Plain(s, a, b) && Plain(s, b, c)
    ensures Plain(s, a, c)
  {
  }

  lemma MarkerIsPlain(s: string, i: nat, word: string)
    requires '\n' !in word && '{' !in word && Marker(s, i, word).Some?
    ensures i + 2 <= Marker(s, i, word).value <= |s| && s[i] == '{' && s[i + 1] == '%'
            && Plain(s, i + 1, Marker(s, i, word).value)
  {
    hide Plain, SkipSpace, SkipDash;
    LitCharacters(s, i, "{%");
    PercentIsPlain(s, i);
    var dash := SkipDash(s, i + 2);
    var name := SkipSpace(s, dash);
    var gap := SkipSpace(s, name + |word|);
    var close := SkipDash(s, gap);
    DashAndSpaceArePlain(s, i + 2);
    DashAndSpaceArePlain(s, dash);
    LitIsPlain(s, name, word);
    DashAndSpaceArePlain(s, name + |word|);
    DashAndSpaceArePlain(s, gap);
    LitIsPlain(s, close, "%}");
    PlainJoin(s, i + 1, i + 2, dash);
    PlainJoin(s, i + 1, dash, name);
    PlainJoin(s, i + 1, name, name + |word|);
    PlainJoin(s, i + 1, name + |word|, gap);
    PlainJoin(s, i + 1, gap, close);
    PlainJoin(s, i + 1, close, close + 2);
    PlainStarts(s, i + 1, close + 2);
  }

  lemma PercentIsPlain(s: string, i: nat)
    requires Lit(s, i, "{%")
    ensures Plain(s, i + 1, i + 2)
  {
  }

  lemma PlainStarts(s: string, from: nat, to: nat)
    requires Plain(s, from, to)
    ensures from <= to
  {
  }

  /** A marker is a Liquid opener, stays on its line, and contains no further opener. */
  lemma MarkerIsOnOneLine(s: string, i: nat, word: string)
    requires (word == RAW || word == ENDRAW) && Marker(s, i, word).Some?
    ensures i < Marker(s, i, word).value <= |s| && Token(s, i)
    ensures forall k :: i <= k < Marker(s, i, word).value ==> s[k] != '\n' && (i < k ==> s[k] != '{')
  {
    MarkerIsPlain(s, i, word);
    hide SkipSpace;
    forall k | i < k < Marker(s, i, word).value ensures s[k] != '\n' && s[k] != '{' {
      assert Ordinary(s, k);
    }
  }

  // ---------------------------------------------------------------- markers as they are written

  predicate Dash(t: string) {
    t == "" || t == "-"
  }

  ghost predicate Spaces(t: string) {
    forall k :: 0 <= k < |t| ==> Space(t[k])
  }

  /** `{%`, an optional dash, spaces, the word, spaces, an optional dash and `%}`. */
  ghost predicate Spelled(t: string, word: string) {
    exists a, x, y, b :: Spells(t, a, x, word, y, b)
  }

  ghost predicate Spells(t: string, a: string, x: string, word: string, y: string, b: string) {
    t == "{%" + a + x + word + y + b + "%}" && Dash(a) && Spaces(x) && Spaces(y) && Dash(b)
  }

  /** The text stands at a position. */
  ghost predicate Stands(s: string, i: nat, t: string) {
    i + |t| <= |s| && s[i..i + |t|] == t
  }

  lemma StandsThen(s: string, i: nat, a: string, b: string)
    requires Stands(s, i, a + b)
    ensures Stands(s, i, a) && Stands(s, i + |a|, b)
  {
    assert s[i..i + |a + b|][..|a|] == a && s[i..i + |a + b|][|a|..] == b;
    assert s[i..i + |a|] == s[i..i + |a + b|][..|a|];
    assert s[i + |a|..i + |a| + |b|] == s[i..i + |a + b|][|a|..];
  }

  lemma StandsAt(s: string, i: nat, t: string, k: nat)
    requires Stands(s, i, t) && k < |t|
    ensures i + k < |s| && s[i + k] == t[k]
  {
    assert s[i..i + |t|][k] == t[k];
  }

  lemma {:induction false} SpacesSkipped(s: string, i: nat, t: string)
    requires Stands(s, i, t) && Spaces(t) && (i + |t| < |s| ==> !Space(s[i + |t|]))
    ensures SkipSpace(s, i) == i + |t|
    decreases |t|
  {
    hide Space;
    if t != "" {
      StandsAt(s, i, t, 0);
      assert t == [t[0]] + t[1..];
      StandsThen(s, i, [t[0]], t[1..]);
      SpacesSkipped(s, i + 1, t[1..]);
    }
  }

  lemma DashSkipped(s: string, i: nat, a: string, after: string)
    requires Stands(s, i, a + after) && Dash(a) && (after != "" ==> after[0] != '-') && (a == "" ==> after != "")
    ensures SkipDash(s, i) == i + |a|
  {
    StandsThen(s, i, a, after);
    hide Stands;
    if a == "" {
      StandsAt(s, i, after, 0);
      assert s[i..i + 1][0] == s[i];
    } else {
      StandsAt(s, i, a, 0);
      assert s[i..i + 1] == [s[i]];
    }
  }

  /** No word begins with a space or a dash. */
  lemma WordStarts(word: string)
    requires word == RAW || word == ENDRAW
    ensures word != "" && !Space(word[0]) && word[0] != '-' && !Space('-') && !Space('%')
  {
  }

  lemma DashOrEnd(b: string)
    requires Dash(b)
    ensures !Space((b + "%}")[0])
  {
    NoSpaces();
    hide Space;
    if b == "" {
      assert (b + "%}")[0] == '%';
    } else {
      assert (b + "%}")[0] == '-';
    }
  }

  lemma NoSpaces()
    ensures !Space('%') && !Space('-')
  {
  }

  lemma SpaceIsNoDash(c: char)
    requires Space(c)
    ensures c != '-'
  {
  }

  /** From the word on. */
  lemma WordIsRead(s: string, name: nat, word: string, y: string, b: string)
    requires Stands(s, name, word + (y + (b + "%}"))) && Spaces(y) && Dash(b)
    ensures var gap := name + |word|;
            && Lit(s, name, word) && SkipSpace(s, gap) == gap + |y| && SkipDash(s, gap + |y|) == gap + |y| + |b|
            && Lit(s, gap + |y| + |b|, "%}")
  {
    hide *;
    var end, gap := b + "%}", name + |word|;
    DashOrEnd(b);
    StandsThen(s, name, word, y + end);
    StandsThen(s, gap, y, end);
    StandsThen(s, gap + |y|, b, "%}");
    StandsAt(s, gap + |y|, end, 0);
    SpacesSkipped(s, gap, y);
    DashSkipped(s, gap + |y|, b, "%}");
    LitStands(s, name, word);
    LitStands(s, gap + |y| + |b|, "%}");
  }

  /** Up to the word. */
  lemma FrontIsRead(s: string, i: nat, a: string, x: string, tail: string)
    requires Stands(s, i, "{%" + (a + (x + tail))) && Dash(a) && Spaces(x)
    requires tail != "" && tail[0] != '-' && !Space(tail[0])
    ensures Lit(s, i, "{%") && SkipDash(s, i + 2) == i + 2 + |a|
    ensures SkipSpace(s, i + 2 + |a|) == i + 2 + |a| + |x| && Stands(s, i + 2 + |a| + |x|, tail)
  {
    hide Space, SkipSpace, SkipDash, Stands, Dash, Spaces, Lit;
    StandsThen(s, i, "{%", a + (x + tail));
    StandsThen(s, i + 2, a, x + tail);
    StandsThen(s, i + 2 + |a|, x, tail);
    AfterDash(x, tail);
    DashSkipped(s, i + 2, a, x + tail);
    StandsAt(s, i + 2 + |a| + |x|, tail, 0);
    SpacesSkipped(s, i + 2 + |a|, x);
    LitStands(s, i, "{%");
  }

  lemma MarkerIs(s: string, i: nat, word: string, name: nat, close: nat)
    requires Lit(s, i, "{%") && name == SkipSpace(s, SkipDash(s, i + 2)) && Lit(s, name, word)
    requires close == SkipDash(s, SkipSpace(s, name + |word|)) && Lit(s, close, "%}")
    ensures Marker(s, i, word) == Some(close + 2)
  {
    hide SkipSpace, SkipDash, Lit;
  }

  lemma SpelledIsRead(s: string, i: nat, a: string, x: string, word: string, y: string, b: string)
    requires (word == RAW || word == ENDRAW) && Stands(s, i, "{%" + a + x + word + y + b + "%}")
    requires Dash(a) && Spaces(x) && Spaces(y) && Dash(b)
    ensures Marker(s, i, word) == Some(i + |a| + |x| + |word| + |y| + |b| + 4)
  {
    hide *;
    WordStarts(word);
    var rest := y + (b + "%}");
    WordFirst(word, rest);
    Opening(a, x, word, y, b);
    FrontIsRead(s, i, a, x, word + rest);
    var name := i + 2 + |a| + |x|;
    WordIsRead(s, name, word, y, b);
    MarkerIs(s, i, word, name, name + |word| + |y| + |b|);
  }

  lemma WordFirst(word: string, rest: string)
    requires word != ""
    ensures word + rest != "" && (word + rest)[0] == word[0]
  {
  }

  lemma Opening(a: string, x: string, word: string, y: string, b: string)
    ensures "{%" + a + x + word + y + b + "%}" == "{%" + (a + (x + (word + (y + (b + "%}")))))
  {
  }

  lemma AfterDash(x: string, tail: string)
    requires Spaces(x) && tail != "" && tail[0] != '-'
    ensures x + tail != "" && (x + tail)[0] != '-'
  {
    if x != "" { SpaceIsNoDash(x[0]); }
    hide Space;
  }

  lemma LitStands(s: string, i: nat, lit: string)
    ensures Stands(s, i, lit) <==> Lit(s, i, lit)
  {
  }

  lemma SkippedIsSpace(s: string, i: nat)
    requires i <= |s|
    ensures SkipSpace(s, i) <= |s| && Spaces(s[i..SkipSpace(s, i)])
    decreases |s| - i
  {
    hide Space;
    if i < |s| && Space(s[i]) { SkippedIsSpace(s, i + 1); }
  }

  lemma SkippedIsDash(s: string, i: nat)
    requires i <= |s|
    ensures i <= SkipDash(s, i) <= |s| && Dash(s[i..SkipDash(s, i)])
  {
  }

  lemma MarkerSpells(s: string, i: nat, word: string)
    requires Marker(s, i, word).Some?
    ensures var e := Marker(s, i, word).value; i <= e <= |s| && Spelled(s[i..e], word)
  {
    hide SkipSpace, SkipDash, Dash, Spaces;
    var a := SkipDash(s, i + 2);
    SkippedIsDash(s, i + 2);
    SkippedIsSpace(s, a);
    var name := SkipSpace(s, a);
    var gap := name + |word|;
    SkippedIsSpace(s, gap);
    var y := SkipSpace(s, gap);
    SkippedIsDash(s, y);
    var close := SkipDash(s, y);
    PartsSpell(s, i, a, name, gap, y, close, word);
  }

  lemma PartsSpell(s: string, i: nat, a: nat, name: nat, gap: nat, y: nat, close: nat, word: string)
    requires i + 2 <= a <= name <= gap <= y <= close <= close + 2 <= |s|
    requires s[i..i + 2] == "{%" && s[name..gap] == word && s[close..close + 2] == "%}"
    requires Dash(s[i + 2..a]) && Spaces(s[a..name]) && Spaces(s[gap..y]) && Dash(s[y..close])
    ensures Spelled(s[i..close + 2], word)
  {
    hide Dash, Spaces;
    SixParts(s, i, i + 2, a, name, gap, y, close, close + 2);
    assert Spells(s[i..close + 2], s[i + 2..a], s[a..name], word, s[gap..y], s[y..close]);
  }

  lemma Cut(s: string, i: nat, j: nat, k: nat)
    requires i <= j <= k <= |s|
    ensures s[i..k] == s[i..j] + s[j..k]
  {
  }

  lemma SixParts(s: string, i: nat, j: nat, k: nat, l: nat, m: nat, n: nat, o: nat, p: nat)
    requires i <= j <= k <= l <= m <= n <= o <= p <= |s|
    ensures s[i..p] == s[i..j] + s[j..k] + s[k..l] + s[l..m] + s[m..n] + s[n..o] + s[o..p]
  {
    Cut(s, i, o, p);
    Cut(s, i, n, o);
    Cut(s, i, m, n);
    Cut(s, i, l, m);
    Cut(s, i, k, l);
    Cut(s, i, j, k);
  }

  /** A marker is recognised exactly where it is spelled out, and its end is the end of the spelling. */
  lemma MarkersExactly(s: string, i: nat, word: string, e: nat)
    requires word == RAW || word == ENDRAW
    ensures Marker(s, i, word) == Some(e) <==> i <= e <= |s| && Spelled(s[i..e], word)
  {
    hide Marker, Dash, Spaces, Spelled;
    if Marker(s, i, word) == Some(e) { MarkerSpells(s, i, word); }
    if i <= e <= |s| && Spelled(s[i..e], word) {
      var a, x, y, b := Spelling(s[i..e], word);
      assert Stands(s, i, s[i..e]);
      SpelledIsRead(s, i, a, x, word, y, b);
    }
  }

  lemma Spelling(t: string, word: string) returns (a: string, x: string, y: string, b: string)
    requires Spelled(t, word)
    ensures Spells(t, a, x, word, y, b)
  {
    hide Spells;
    a, x, y, b :| Spells(t, a, x, word, y, b);
  }

  // ---------------------------------------------------------------- the declarative reading

  /** A raw span: its opening marker is [open, body), its closing marker [close, end). */
  datatype Span = Span(open: nat, body: nat, close: nat, end: nat)

  ghost predicate NoClose(s: string, from: nat, to: nat) {
    forall p: nat :: from <= p < to ==> Marker(s, p, ENDRAW).None?
  }

  ghost predicate IsSpan(s: string, sp: Span) {
    && Marker(s, sp.open, RAW) == Some(sp.body) && sp.body <= sp.close
    && Marker(s, sp.close, ENDRAW) == Some(sp.end) && NoClose(s, sp.body, sp.close)
  }

  /** `p` opens a span, lies inside one, or belongs to the marker closing one. */
  ghost predicate InSpan(sp: Span, p: nat) {
    p == sp.open || sp.body <= p < sp.end
  }

  ghost predicate Covered(spans: seq<Span>, p: nat) {
    exists k :: 0 <= k < |spans| && InSpan(spans[k], p)
  }

  ghost predicate Ordered(s: string, spans: seq<Span>) {
    && (forall k :: 0 <= k < |spans| ==> IsSpan(s, spans[k]))
    && (forall j, k :: 0 <= j < k < |spans| ==> spans[j].end <= spans[k].open)
  }

  /** Closed raw spans, in order, that account for every Liquid opener. */
  ghost predicate Reading(s: string, spans: seq<Span>) {
    Ordered(s, spans) && forall p: nat :: Token(s, p) ==> Covered(spans, p)
  }

  ghost predicate Clean(s: string) {
    exists spans :: Reading(s, spans)
  }

  /** Two braces, or a brace and a per cent sign, that no raw span holds are never clean. */
  lemma StrayBracesAreRefused(s: string, p: nat)
    requires p + 1 < |s| && s[p] == '{' && (s[p + 1] == '{' || s[p + 1] == '%')
    requires forall spans :: Ordered(s, spans) ==> !Covered(spans, p)
    ensures !Clean(s)
  {
    hide Ordered, Covered;
    assert s[p..p + 2] == [s[p], s[p + 1]];
    assert Token(s, p);
  }

  // ---------------------------------------------------------------- readings are unique

  function EndOf(spans: seq<Span>): nat {
    if spans == [] then 0 else spans[|spans| - 1].end
  }

  /** `spans` account for every opener in front of `at`. */
  ghost predicate Accounts(s: string, spans: seq<Span>, at: nat) {
    Ordered(s, spans) && EndOf(spans) <= at && forall p: nat :: p < at && Token(s, p) ==> Covered(spans, p)
  }

  lemma SpanBounds(s: string, sp: Span)
    requires IsSpan(s, sp)
    ensures sp.open < sp.body <= sp.close < sp.end <= |s| && Token(s, sp.open)
  {
  }

  lemma EndsAreOrdered(s: string, spans: seq<Span>, k: nat)
    requires Ordered(s, spans) && k < |spans|
    ensures spans[k].end <= EndOf(spans)
  {
    hide Marker, Token, NoClose;
    SpanBounds(s, spans[|spans| - 1]);
  }

  lemma FirstSpanIsForced(s: string, a: Span, b: Span)
    requires IsSpan(s, a) && IsSpan(s, b) && a.open == b.open
    ensures a == b
  {
    hide Marker;
    assert a.close < b.close ==> Marker(s, a.close, ENDRAW).None?;
    assert b.close < a.close ==> Marker(s, b.close, ENDRAW).None?;
  }

  /** The next span of any reading that extends `spans` opens at the first opener not yet accounted for. */
  lemma NextOpenIsTheNextToken(s: string, spans: seq<Span>, all: seq<Span>, p: nat)
    requires Reading(s, all) && spans <= all && Accounts(s, spans, EndOf(spans))
    requires Token(s, p) && EndOf(spans) <= p && forall q: nat :: EndOf(spans) <= q < p ==> !Token(s, q)
    ensures |spans| < |all| && all[|spans|].open == p
  {
    hide Marker, Token, IsSpan;
    var n := |spans|;
    assert Covered(all, p);
    var k :| 0 <= k < |all| && InSpan(all[k], p);
    SpanBounds(s, all[k]);
    if k < n {
      assert spans[k] == all[k];
      EndsAreOrdered(s, spans, k);
    }
    SpanBounds(s, all[n]);
    if n > 0 { assert spans[n - 1] == all[n - 1]; }
    assert EndOf(spans) <= all[n].open;
    assert Token(s, all[n].open);
  }

  /** Whatever accounts for a front part of the text is a prefix of every reading. */
  lemma {:induction false} ReadingExtends(s: string, spans: seq<Span>, all: seq<Span>)
    requires Accounts(s, spans, EndOf(spans)) && Reading(s, all)
    ensures spans <= all
    decreases |spans|
  {
    hide Marker, Token, IsSpan;
    if spans != [] {
      var n := |spans| - 1;
      var front, last := spans[..n], spans[n];
      SpanBounds(s, last);
      FrontAccounts(s, spans);
      ReadingExtends(s, front, all);
      NextOpenIsTheNextToken(s, front, all, last.open);
      FirstSpanIsForced(s, last, all[n]);
      assert spans == front + [last] == all[..n] + [all[n]];
    }
  }

  lemma FrontAccounts(s: string, spans: seq<Span>)
    requires spans != [] && Accounts(s, spans, EndOf(spans))
    ensures var front, last := spans[..|spans| - 1], spans[|spans| - 1];
            && Accounts(s, front, EndOf(front)) && EndOf(front) <= last.open && last.open < last.end
            && forall q: nat :: EndOf(front) <= q < last.open ==> !Token(s, q)
  {
    hide Marker, Token, IsSpan;
    var n := |spans| - 1;
    var front, last := spans[..n], spans[n];
    SpanBounds(s, last);
    if n > 0 { assert front[n - 1] == spans[n - 1]; }
    forall p: nat | p < last.open && Token(s, p) ensures Covered(front, p) && p < EndOf(front) {
      assert Covered(spans, p);
      var k :| 0 <= k < |spans| && InSpan(spans[k], p);
      assert k < n && front[k] == spans[k];
      SpanBounds(s, front[k]);
      EndsAreOrdered(s, front, k);
    }
  }

  /** An opener outside every span so far that is not a raw marker spoils the text. */
  lemma StrayToken(s: string, spans: seq<Span>, at: nat, p: nat)
    requires Accounts(s, spans, at) && at <= p && Token(s, p) && Marker(s, p, RAW).None?
    requires forall q: nat :: at <= q < p ==> !Token(s, q)
    ensures !Clean(s)
  {
    hide Marker, Token;
    AccountsLess(s, spans, at);
    forall all ensures !Reading(s, all) {
      if Reading(s, all) {
        ReadingExtends(s, spans, all);
        NoTokenBetween(s, spans, at);
        NextOpenIsTheNextToken(s, spans, all, p);
        assert false;
      }
    }
  }

  lemma AccountsLess(s: string, spans: seq<Span>, at: nat)
    requires Accounts(s, spans, at)
    ensures Accounts(s, spans, EndOf(spans))
  {
  }

  lemma NoTokenBetween(s: string, spans: seq<Span>, at: nat)
    requires Accounts(s, spans, at)
    ensures forall q: nat :: EndOf(spans) <= q < at ==> !Token(s, q)
  {
    hide Marker, Token, IsSpan;
    forall q: nat | EndOf(spans) <= q < at ensures !Token(s, q) {
      if Covered(spans, q) {
        var k :| 0 <= k < |spans| && InSpan(spans[k], q);
        SpanBounds(s, spans[k]);
        EndsAreOrdered(s, spans, k);
        assert false;
      }
    }
  }

  /** A raw marker with no closing marker after it spoils the text. */
  lemma NeverClosed(s: string, spans: seq<Span>, at: nat, open: nat, body: nat)
    requires Accounts(s, spans, at) && at <= open && Marker(s, open, RAW) == Some(body) && NoClose(s, body, |s|)
    requires forall q: nat :: at <= q < open ==> !Token(s, q)
    ensures !Clean(s)
  {
    hide Marker, Token;
    AccountsLess(s, spans, at);
    NoTokenBetween(s, spans, at);
    MarkerIsOnOneLine(s, open, RAW);
    forall all ensures !Reading(s, all) {
      if Reading(s, all) {
        ReadingExtends(s, spans, all);
        NextOpenIsTheNextToken(s, spans, all, open);
        SpanBounds(s, all[|spans|]);
        assert false;
      }
    }
  }

  // ---------------------------------------------------------------- the scanner

  datatype Finding = Outside(line: nat) | Unclosed(line: nat)

  method NextBreak(s: string, from: nat) returns (to: nat)
    requires from <= |s|
    ensures from <= to <= |s| && (to < |s| ==> s[to] == '\n') && forall k :: from <= k < to ==> s[k] != '\n'
  {
    to := from;
    while to < |s| && s[to] != '\n'
      invariant from <= to <= |s| && forall k :: from <= k < to ==> s[k] != '\n'
    {
      to := to + 1;
    }
  }

  /** The leftmost marker that starts in [from, to). */
  method SearchMarker(s: string, from: nat, to: nat, word: string) returns (r: Option<(nat, nat)>)
    requires from <= to <= |s|
    ensures r.Some? ==> from <= r.value.0 < to && Marker(s, r.value.0, word) == Some(r.value.1)
                        && forall p: nat :: from <= p < r.value.0 ==> Marker(s, p, word).None?
    ensures r.None? ==> forall p: nat :: from <= p < to ==> Marker(s, p, word).None?
  {
    hide Marker;
    for p := from to to
      invariant forall q: nat :: from <= q < p ==> Marker(s, q, word).None?
    {
      var end := Marker(s, p, word);
      if end.Some? { return Some((p, end.value)); }
    }
    return None;
  }

  method SearchToken(s: string, from: nat, to: nat) returns (r: Option<nat>)
    requires from <= to <= |s|
    ensures r.Some? ==>
              from <= r.value < to && Token(s, r.value) && forall p: nat :: from <= p < r.value ==> !Token(s, p)
    ensures r.None? ==> forall p: nat :: from <= p < to ==> !Token(s, p)
  {
    hide Token;
    for p := from to to
      invariant forall q: nat :: from <= q < p ==> !Token(s, q)
    {
      if Token(s, p) { return Some(p); }
    }
    return None;
  }

  /** How far the text has been accounted for: the open span, when there is one, starts at `open`. */
  ghost predicate Progress(s: string, spans: seq<Span>, at: nat, inRaw: bool, open: nat, body: nat) {
    if inRaw then Accounts(s, spans, open) && open < body <= at && Marker(s, open, RAW) == Some(body)
       && NoClose(s, body, at)
    else Accounts(s, spans, at)
  }

  lemma StepQuietly(s: string, spans: seq<Span>, at: nat, to: nat, inRaw: bool, open: nat, body: nat)
    requires Progress(s, spans, at, inRaw, open, body) && at <= to
    requires if inRaw then NoClose(s, at, to) else forall p: nat :: at <= p < to ==> !Token(s, p)
    ensures Progress(s, spans, to, inRaw, open, body)
  {
  }

  lemma StepOverNewline(s: string, spans: seq<Span>, at: nat, inRaw: bool, open: nat, body: nat)
    requires Progress(s, spans, at, inRaw, open, body) && at < |s| && s[at] == '\n'
    ensures Progress(s, spans, at + 1, inRaw, open, body)
  {
    hide Ordered, Covered;
    assert !Lit(s, at, "{%") by { if Lit(s, at, "{%") { LitCharacters(s, at, "{%"); assert false; } }
    assert !Lit(s, at, "{{") by { if Lit(s, at, "{{") { LitCharacters(s, at, "{{"); assert false; } }
    StepQuietly(s, spans, at, at + 1, inRaw, open, body);
  }

  lemma StepClose(s: string, spans: seq<Span>, at: nat, open: nat, body: nat, close: nat, end: nat)
    requires Progress(s, spans, at, true, open, body) && at <= close && Marker(s, close, ENDRAW) == Some(end)
    requires NoClose(s, at, close)
    ensures Progress(s, spans + [Span(open, body, close, end)], end, false, 0, 0)
  {
    hide Marker, Token, NoClose, Accounts, IsSpan;
    SpanIsComplete(s, open, body, at, close, end);
    OpenersInsideAnOpenMarker(s, open, body);
    OneMoreSpanAccounts(s, spans, Span(open, body, close, end));
  }

  lemma OneMoreSpanAccounts(s: string, spans: seq<Span>, sp: Span)
    requires Accounts(s, spans, sp.open) && IsSpan(s, sp)
    requires forall p: nat :: sp.open < p < sp.body ==> !Token(s, p)
    ensures Accounts(s, spans + [sp], sp.end)
  {
    hide Token, Covered, Ordered, IsSpan;
    OrderedGrows(s, spans, sp);
    CoveredByOneMore(s, spans, sp);
  }

  lemma OrderedGrows(s: string, spans: seq<Span>, sp: Span)
    requires Ordered(s, spans) && IsSpan(s, sp) && EndOf(spans) <= sp.open
    ensures Ordered(s, spans + [sp])
  {
    hide IsSpan;
    forall j | 0 <= j < |spans| ensures spans[j].end <= sp.open { EndsAreOrdered(s, spans, j); }
  }

  lemma SpanIsComplete(s: string, open: nat, body: nat, at: nat, close: nat, end: nat)
    requires Marker(s, open, RAW) == Some(body) && body <= at <= close && Marker(s, close, ENDRAW) == Some(end)
    requires NoClose(s, body, at) && NoClose(s, at, close)
    ensures IsSpan(s, Span(open, body, close, end))
  {
  }

  lemma CoveredByOneMore(s: string, spans: seq<Span>, sp: Span)
    requires Accounts(s, spans, sp.open)
    requires forall p: nat :: sp.open < p < sp.body ==> !Token(s, p)
    ensures forall p: nat :: p < sp.end && Token(s, p) ==> Covered(spans + [sp], p)
  {
    hide Token, Ordered;
    var grown := spans + [sp];
    forall p: nat | p < sp.end && Token(s, p) ensures Covered(grown, p) {
      if p < sp.open {
        var k :| 0 <= k < |spans| && InSpan(spans[k], p);
        assert grown[k] == spans[k];
      } else {
        assert InSpan(grown[|spans|], p);
      }
    }
  }

  lemma OpenersInsideAnOpenMarker(s: string, open: nat, body: nat)
    requires Marker(s, open, RAW) == Some(body)
    ensures forall p: nat :: open < p < body ==> !Token(s, p)
  {
    MarkerIsOnOneLine(s, open, RAW);
    hide Marker;
    forall p: nat | open < p < body ensures !Token(s, p) {
      assert s[p] != '{';
      if Lit(s, p, "{%") { LitCharacters(s, p, "{%"); assert false; }
      if Lit(s, p, "{{") { LitCharacters(s, p, "{{"); assert false; }
    }
  }

  // ---------------------------------------------------------------- where the findings are

  /** The number of the line a position lies on. */
  function LineOf(s: string, p: nat): nat
    requires p <= |s|
  {
    if p == 0 then 1 else LineOf(s, p - 1) + if s[p - 1] == '\n' then 1 else 0
  }

  lemma {:induction false} SameLine(s: string, from: nat, p: nat)
    requires from <= p <= |s| && forall k :: from <= k < p ==> s[k] != '\n'
    ensures LineOf(s, p) == LineOf(s, from)
  {
    if from < p { SameLine(s, from, p - 1); }
  }

  /** A raw marker on that line is never closed, or an opener on it is no raw marker. */
  ghost predicate Justified(s: string, f: Finding) {
    match f
    case Outside(n) => exists p: nat :: p < |s| && LineOf(s, p) == n && Stray(s, p)
    case Unclosed(n) => exists p: nat :: p < |s| && LineOf(s, p) == n && NeverCloses(s, p)
  }

  ghost predicate Stray(s: string, p: nat) {
    Token(s, p) && Marker(s, p, RAW).None?
  }

  ghost predicate NeverCloses(s: string, p: nat) {
    Marker(s, p, RAW).Some? && NoClose(s, Marker(s, p, RAW).value, |s|)
  }

  /** While a span is open: where it was opened, on which line, and that nothing has closed it. */
  ghost predicate OpenSince(s: string, at: nat, inRaw: bool, openedAt: nat, open: nat, body: nat) {
    inRaw ==> && open < body <= at && open < |s| && LineOf(s, open) == openedAt && Marker(s, open, RAW) == Some(body)
              && NoClose(s, body, at)
  }

  lemma StillOpen(s: string, at: nat, to: nat, openedAt: nat, open: nat, body: nat)
    requires OpenSince(s, at, true, openedAt, open, body) && at <= to && NoClose(s, at, to)
    ensures OpenSince(s, to, true, openedAt, open, body)
  {
    hide Marker;
  }

  lemma NothingClosesAtNewline(s: string, at: nat)
    requires at < |s| && s[at] == '\n'
    ensures NoClose(s, at, at + 1)
  {
    if Lit(s, at, "{%") { LitCharacters(s, at, "{%"); }
  }

  lemma OpenAtEnd(s: string, openedAt: nat, open: nat, body: nat)
    requires OpenSince(s, |s|, true, openedAt, open, body)
    ensures Justified(s, Unclosed(openedAt))
  {
    hide Marker, NoClose;
    assert NeverCloses(s, open);
  }

  lemma StrayOn(s: string, p: nat)
    requires p < |s| && Stray(s, p)
    ensures Justified(s, Outside(LineOf(s, p)))
  {
    hide Stray;
  }

  /** The scan of one line, up to its end or its first violation. */
  method ScanLine(s: string, ghost spans: seq<Span>, from: nat, to: nat, number: nat, inRaw: bool, openedAt: nat,
                  ghost open: nat, ghost body: nat)
    returns (finding: Option<Finding>, nowRaw: bool, nowOpenedAt: nat, ghost newSpans: seq<Span>, ghost newOpen: nat,
             ghost newBody: nat)
    requires from <= to <= |s| && (to < |s| ==> s[to] == '\n') && forall k :: from <= k < to ==> s[k] != '\n'
    requires LineOf(s, from) == number && OpenSince(s, from, inRaw, openedAt, open, body)
    ensures finding.Some? ==> Justified(s, finding.value) && !nowRaw
    ensures finding.None? ==> OpenSince(s, to, nowRaw, nowOpenedAt, newOpen, newBody)
    ensures Progress(s, spans, from, inRaw, open, body) ==>
              if finding.Some? then !Clean(s) else Progress(s, newSpans, to, nowRaw, newOpen, newBody)
  {
    hide Marker, Token, Progress, Clean, LineOf, NoClose, Justified;
    var position := from;
    nowRaw, nowOpenedAt := inRaw, openedAt;
    newSpans, newOpen, newBody := spans, open, body;
    ghost var sound := Progress(s, spans, from, inRaw, open, body);
    while position < to
      invariant from <= position <= to
      invariant sound ==> Progress(s, newSpans, position, nowRaw, newOpen, newBody)
      invariant OpenSince(s, position, nowRaw, nowOpenedAt, newOpen, newBody)
    {
      if nowRaw {
        var close := SearchMarker(s, position, to, ENDRAW);
        if close.None? {
          NoMarkerNoClose(s, position, to);
          StillOpen(s, position, to, nowOpenedAt, newOpen, newBody);
          if sound { StepQuietly(s, newSpans, position, to, true, newOpen, newBody); }
          return None, nowRaw, nowOpenedAt, newSpans, newOpen, newBody;
        }
        NoMarkerNoClose(s, position, close.value.0);
        MarkerFits(s, close.value.0, to, ENDRAW);
        nowRaw := false;
        if sound { StepClose(s, newSpans, position, newOpen, newBody, close.value.0, close.value.1); }
        newSpans, newOpen, newBody := newSpans + [Span(newOpen, newBody, close.value.0, close.value.1)], 0, 0;
        position := close.value.1;
        continue;
      }
      var opener := SearchMarker(s, position, to, RAW);
      var token := SearchToken(s, position, to);
      if opener.Some? { MarkerFits(s, opener.value.0, to, RAW); }
      if opener.Some? && (token.None? || opener.value.0 <= token.value) {
        nowRaw, nowOpenedAt := true, number;
        if sound { ReadyToOpen(s, newSpans, position, newOpen, newBody, opener.value.0, opener.value.1); }
        SameLine(s, from, opener.value.0);
        NothingYet(s, opener.value.1);
        newOpen, newBody := opener.value.0, opener.value.1;
        position := opener.value.1;
        continue;
      }
      if token.None? {
        if sound { StepQuietly(s, newSpans, position, to, false, newOpen, newBody); }
        return None, nowRaw, nowOpenedAt, newSpans, newOpen, newBody;
      }
      SameLine(s, from, token.value);
      StrayIs(s, token.value);
      StrayOn(s, token.value);
      if sound { ReadyToReject(s, newSpans, position, newOpen, newBody, token.value); }
      return Some(Outside(number)), nowRaw, nowOpenedAt, newSpans, newOpen, newBody;
    }
    return None, nowRaw, nowOpenedAt, newSpans, newOpen, newBody;
  }

  lemma NoMarkerNoClose(s: string, from: nat, to: nat)
    requires forall p: nat :: from <= p < to ==> Marker(s, p, ENDRAW).None?
    ensures NoClose(s, from, to)
  {
    hide Marker;
  }

  lemma NothingYet(s: string, at: nat)
    ensures NoClose(s, at, at)
  {
  }

  lemma StrayIs(s: string, p: nat)
    requires Token(s, p) && Marker(s, p, RAW).None?
    ensures Stray(s, p)
  {
  }

  /** A marker that starts on a line ends on it. */
  lemma MarkerFits(s: string, p: nat, to: nat, word: string)
    requires (word == RAW || word == ENDRAW) && Marker(s, p, word).Some? && p < to <= |s|
             && (to < |s| ==> s[to] == '\n')
    ensures p < Marker(s, p, word).value <= to && Token(s, p)
  {
    MarkerIsOnOneLine(s, p, word);
    hide Marker;
  }

  lemma ReadyToOpen(s: string, spans: seq<Span>, at: nat, open: nat, body: nat, newOpen: nat, newBody: nat)
    requires Progress(s, spans, at, false, open, body) && at <= newOpen && Marker(s, newOpen, RAW) == Some(newBody)
    requires forall p: nat :: at <= p < newOpen ==> !Token(s, p)
    ensures Progress(s, spans, newBody, true, newOpen, newBody)
  {
  }

  lemma ReadyToReject(s: string, spans: seq<Span>, at: nat, open: nat, body: nat, token: nat)
    requires Progress(s, spans, at, false, open, body) && at <= token && Token(s, token) && Marker(s, token, RAW).None?
    requires forall p: nat :: at <= p < token ==> !Token(s, p)
    ensures !Clean(s)
  {
    hide Marker, Token, Ordered;
    StrayToken(s, spans, at, token);
  }

  /**
   `scan_text`: no findings exactly when the text has a reading, and every finding gives the line
   of an opener that is no raw marker, or of a raw marker that nothing closes.
   */
  method ScanText(s: string) returns (findings: seq<Finding>)
    ensures findings == [] <==> Clean(s)
    ensures forall f :: f in findings ==> Justified(s, f)
  {
    hide Marker, Token, Progress, Clean, NoClose, Justified, LineOf;
    findings := [];
    var inRaw, openedAt := false, 0;
    ghost var spans, open, body := [], 0, 0;
    var from, number := 0, 1;
    NothingScanned(s);
    FirstLine(s);
    while from <= |s|
      invariant from <= |s| + 1
      invariant findings == [] ==> Progress(s, spans, if from <= |s| then from else |s|, inRaw, open, body)
      invariant findings != [] ==> !Clean(s)
      invariant forall f :: f in findings ==> Justified(s, f)
      invariant from <= |s| ==> LineOf(s, from) == number
      invariant OpenSince(s, if from <= |s| then from else |s|, inRaw, openedAt, open, body)
      decreases |s| + 1 - from
    {
      var to := NextBreak(s, from);
      var finding;
      finding, inRaw, openedAt, spans, open, body := ScanLine(s, spans, from, to, number, inRaw, openedAt, open, body);
      if findings == [] && finding.None? && to < |s| { StepOverNewline(s, spans, to, inRaw, open, body); }
      if finding.Some? { findings := findings + [finding.value]; }
      if to < |s| {
        SameLine(s, from, to);
        NextLine(s, to);
        NothingClosesAtNewline(s, to);
        if inRaw { StillOpen(s, to, to + 1, openedAt, open, body); }
      }
      from, number := to + 1, number + 1;
    }
    if findings == [] { AllScanned(s, spans, inRaw, open, body); }
    if inRaw {
      OpenAtEnd(s, openedAt, open, body);
      findings := findings + [Unclosed(openedAt)];
    }
  }

  lemma FirstLine(s: string)
    ensures LineOf(s, 0) == 1
  {
  }

  lemma NextLine(s: string, at: nat)
    requires at < |s| && s[at] == '\n'
    ensures LineOf(s, at + 1) == LineOf(s, at) + 1
  {
  }

  lemma NothingScanned(s: string)
    ensures Progress(s, [], 0, false, 0, 0)
  {
  }

  lemma AllScanned(s: string, spans: seq<Span>, inRaw: bool, open: nat, body: nat)
    requires Progress(s, spans, |s|, inRaw, open, body)
    ensures Clean(s) <==> !inRaw
  {
    if inRaw {
      hide Marker, Token, Ordered;
      NeverClosed(s, spans, open, open, body);
    } else {
      hide Marker, Ordered;
      assert Reading(s, spans);
    }
  }
}
