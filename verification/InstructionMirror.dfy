/**
 The derived instruction surfaces (scripts/check-instructions.py): the TOML renderings
 of a body and of a front-matter value, and the marked block that mirrors AGENTS.md.

 The renderings are checked against a reader of TOML strings written from the section
 "String" of TOML v1.0.0, not against the renderers themselves.
 */
module InstructionMirror {
  import opened Wrappers

  const Q := '\"'
  const BACKSLASH := '\\'
  const TRIPLE := [Q, Q, Q]

  // ---------------------------------------------------------------- reading TOML strings

  /** Control characters other than tab may not appear unescaped; line feeds are handled apart. */
  predicate Forbidden(c: char) {
    (c < ' ' && c != '\t') || c == '\U{007F}'
  }

  function HexValue(c: char): Option<nat> {
    if '0' <= c <= '9' then Some((c - '0') as nat)
    else if 'a' <= c <= 'f' then Some(10 + (c - 'a') as nat)
    else if 'A' <= c <= 'F' then Some(10 + (c - 'A') as nat)
    else None
  }

  function HexNumber(s: string): Option<nat> {
    if s == [] then Some(0)
    else
      var before, last := HexNumber(s[..|s| - 1]), HexValue(s[|s| - 1]);
      if before.None? || last.None? then None else Some(16 * before.value + last.value)
  }

  /** A \u or \U escape names a Unicode scalar value with `n` hexadecimal digits. */
  function UnicodeEscape(s: string, n: nat): Option<(string, string)> {
    if |s| < n || HexNumber(s[..n]).None? then None
    else
      var code := HexNumber(s[..n]).value;
      if code < 0xD800 || 0xE000 <= code < 0x11_0000 then Some(([code as char], s[n..])) else None
  }

  /** The escape after a backslash: the characters it denotes and what follows it. */
  function Escape(s: string): Option<(string, string)> {
    if s == [] then None
    else match s[0]
         case 'b' => Some(("\U{0008}", s[1..]))
         case 't' => Some(("\t", s[1..]))
         case 'n' => Some(("\n", s[1..]))
         case 'f' => Some(("\U{000C}", s[1..]))
         case 'r' => Some(("\r", s[1..]))
         case '\"' => Some(("\"", s[1..]))
         case '\\' => Some(("\\", s[1..]))
         case 'u' => UnicodeEscape(s[1..], 4)
         case 'U' => UnicodeEscape(s[1..], 8)
         case _ => None
  }

  function SkipBlank(s: string): (t: string)
    ensures |t| <= |s|
  {
    if s != [] && s[0] in {' ', '\t'} then SkipBlank(s[1..]) else s
  }

  function SkipWhite(s: string): (t: string)
    ensures |t| <= |s|
  {
    if s != [] && s[0] in {' ', '\t', '\n'} then SkipWhite(s[1..])
    else if |s| > 1 && s[0] == '\r' && s[1] == '\n' then SkipWhite(s[2..])
    else s
  }

  predicate StartsLine(s: string) {
    (s != [] && s[0] == '\n') || (|s| > 1 && s[0] == '\r' && s[1] == '\n')
  }

  function Put(head: string, r: Option<(string, string)>): Option<(string, string)> {
    if r.None? then None else Some((head + r.value.0, r.value.1))
  }

  /** The inside of a multi-line basic string: its value and the text after the closing delimiter. */
  function MultilineBody(s: string): Option<(string, string)>
    decreases |s|
  {
    if s == [] then None
    else if TRIPLE <= s then
      // One or two quotes may stand right before the closing delimiter.
      var rest := s[3..];
      if [Q, Q] <= rest then Some(([Q, Q], rest[2..]))
      else if [Q] <= rest then Some(([Q], rest[1..]))
      else Some(("", rest))
    else if s[0] == BACKSLASH then
      if StartsLine(SkipBlank(s[1..])) then MultilineBody(SkipWhite(SkipBlank(s[1..])))
      else
        var e := Escape(s[1..]);
        if e.None? || |e.value.1| >= |s| then None else Put(e.value.0, MultilineBody(e.value.1))
    else if s[0] == '\n' then Put("\n", MultilineBody(s[1..]))
    else if |s| > 1 && s[0] == '\r' && s[1] == '\n' then Put("\n", MultilineBody(s[2..]))
    else if Forbidden(s[0]) then None
    else Put([s[0]], MultilineBody(s[1..]))
  }

  /** A multi-line basic string; a newline right after the opening delimiter is trimmed. */
  function ReadMultiline(s: string): Option<(string, string)> {
    if !(TRIPLE <= s) then None
    else if |s| > 3 && s[3] == '\n' then MultilineBody(s[4..])
    else if |s| > 4 && s[3] == '\r' && s[4] == '\n' then MultilineBody(s[5..])
    else MultilineBody(s[3..])
  }

  /** The inside of a basic string. */
  function BasicBody(s: string): Option<(string, string)>
    decreases |s|
  {
    if s == [] then None
    else if s[0] == Q then Some(("", s[1..]))
    else if s[0] == BACKSLASH then
      var e := Escape(s[1..]);
      if e.None? || |e.value.1| >= |s| then None else Put(e.value.0, BasicBody(e.value.1))
    else if s[0] == '\n' || Forbidden(s[0]) then None
    else Put([s[0]], BasicBody(s[1..]))
  }

  function ReadBasic(s: string): Option<(string, string)> {
    if s != [] && s[0] == Q then BasicBody(s[1..]) else None
  }

  // ---------------------------------------------------------------- toml_multiline

  /** `str.replace`: left to right, without overlap. */
  function Replace(s: string, old_: string, new_: string): string
    requires old_ != ""
    decreases |s|
  {
    if |s| < |old_| then s
    else if old_ <= s then new_ + Replace(s[|old_|..], old_, new_)
    else [s[0]] + Replace(s[1..], old_, new_)
  }

  function TomlMultiline(value: string): string {
    var escaped := Replace(Replace(value, [BACKSLASH], [BACKSLASH, BACKSLASH]), TRIPLE, [Q, Q, BACKSLASH, Q]);
    TRIPLE + "\n" + escaped + TRIPLE
  }

  /** Both replacements in one pass. */
  function Escaped(value: string): string {
    if value == [] then []
    else if TRIPLE <= value then [Q, Q, BACKSLASH, Q] + Escaped(value[3..])
    else if value[0] == BACKSLASH then [BACKSLASH, BACKSLASH] + Escaped(value[1..])
    else [value[0]] + Escaped(value[1..])
  }

  function Doubled(value: string): string {
    Replace(value, [BACKSLASH], [BACKSLASH, BACKSLASH])
  }

  function Broken(value: string): string {
    Replace(value, TRIPLE, [Q, Q, BACKSLASH, Q])
  }

  lemma DoubledStep(value: string)
    requires value != []
    ensures Doubled(value) == (if value[0] == BACKSLASH then [BACKSLASH, BACKSLASH] else [value[0]]) +
              Doubled(value[1..])
  {
  }

  lemma BrokenStep(c: char, rest: string)
    requires !(TRIPLE <= [c] + rest)
    ensures Broken([c] + rest) == [c] + Broken(rest)
  {
  }

  lemma DoublingKeepsQuotes(value: string)
    ensures TRIPLE <= Doubled(value) <==> TRIPLE <= value
    ensures TRIPLE <= value ==> Doubled(value) == TRIPLE + Doubled(value[3..])
  {
    assert Doubled([]) == [];
    if value == [] { return; }
    DoubledStep(value);
    var one := value[1..];
    assert Doubled(value)[0] == value[0];
    if value[0] != Q || one == [] { return; }
    DoubledStep(one);
    var two := one[1..];
    assert Doubled(value)[1] == one[0];
    if one[0] != Q || two == [] { return; }
    DoubledStep(two);
    assert Doubled(value)[2] == two[0];
    assert two[1..] == value[3..];
    if two[0] == Q { assert Doubled(value) == TRIPLE + Doubled(value[3..]); }
  }

  lemma BrokenTriple(rest: string)
    ensures Broken(TRIPLE + rest) == [Q, Q, BACKSLASH, Q] + Broken(rest)
  {
  }

  lemma NothingToReplace()
    ensures Doubled([]) == [] && Broken([]) == []
  {
  }

  lemma {:induction false} TwoReplacementsAreOnePass(value: string)
    ensures Broken(Doubled(value)) == Escaped(value)
    decreases |value|
  {
    hide Doubled, Broken;
    NothingToReplace();
    if value != [] {
      DoublingKeepsQuotes(value);
      DoubledStep(value);
      if TRIPLE <= value {
        TwoReplacementsAreOnePass(value[3..]);
        BrokenTriple(Doubled(value[3..]));
      } else {
        TwoReplacementsAreOnePass(value[1..]);
        var rest := Doubled(value[1..]);
        if value[0] == BACKSLASH {
          assert [BACKSLASH, BACKSLASH] + rest == [BACKSLASH] + ([BACKSLASH] + rest);
          BrokenStep(BACKSLASH, [BACKSLASH] + rest);
          BrokenStep(BACKSLASH, rest);
        } else {
          BrokenStep(value[0], rest);
        }
      }
    }
  }

  /** Line breaks as a reader normalises them. */
  function Normalised(value: string): string {
    if value == [] then []
    else if |value| > 1 && value[0] == '\r' && value[1] == '\n' then "\n" + Normalised(value[2..])
    else [value[0]] + Normalised(value[1..])
  }

  /** No forbidden character, apart from line feeds and carriage returns that precede one. */
  predicate Admissible(value: string) {
    value == [] || (
      if value[0] == '\n' then Admissible(value[1..])
      else if |value| > 1 && value[0] == '\r' && value[1] == '\n' then Admissible(value[2..])
      else !Forbidden(value[0]) && Admissible(value[1..]))
  }

  ghost predicate Unquoted(rest: string) {
    rest == [] || rest[0] != Q
  }

  /** What the reader makes of an escaped value and its closing delimiter. */
  ghost predicate ReadsAs(value: string, rest: string) {
    MultilineBody(Escaped(value) + TRIPLE + rest) == if Admissible(value) then Some((Normalised(value), rest)) else None
  }

  lemma ReadNothing(rest: string)
    requires Unquoted(rest)
    ensures ReadsAs("", rest)
  {
  }

  lemma PlainCharacter(c: char, tail: string)
    requires c != BACKSLASH && c != '\n' && !(TRIPLE <= [c] + tail) && !(c == '\r' && tail != [] && tail[0] == '\n')
    ensures MultilineBody([c] + tail) == if Forbidden(c) then None else Put([c], MultilineBody(tail))
  {
  }

  lemma EscapedCharacter(c: char, tail: string)
    requires c == Q || c == BACKSLASH
    ensures MultilineBody([BACKSLASH, c] + tail) == Put([c], MultilineBody(tail))
  {
    var s := [BACKSLASH, c] + tail;
    assert s[1..] == [c] + tail && ([c] + tail)[1..] == tail;
    assert s[1..][0] == c && SkipBlank(s[1..]) == s[1..] && !StartsLine(s[1..]);
    assert Escape(s[1..]) == Some(([c], tail)) && |tail| < |s|;
    assert s[0] == BACKSLASH && !(TRIPLE <= s);
  }

  lemma Reassociate(a: string, b: string, c: string, d: string)
    ensures (a + b) + c + d == a + (b + c + d)
  {
  }

  lemma NewlineCharacter(tail: string)
    ensures MultilineBody(['\n'] + tail) == Put("\n", MultilineBody(tail))
  {
    assert (['\n'] + tail)[1..] == tail;
  }

  lemma EscapedStep(value: string)
    requires value != [] && value[0] != BACKSLASH && !(TRIPLE <= value)
    ensures Escaped(value) == [value[0]] + Escaped(value[1..])
  {
  }

  lemma QuotesAreAdmissible(value: string)
    requires TRIPLE <= value
    ensures Admissible(value) == Admissible(value[3..])
            && Normalised(value) == [Q] + ([Q] + ([Q] + Normalised(value[3..])))
  {
    var one := value[1..];
    var two := one[1..];
    assert one[0] == Q && two[0] == Q && two[1..] == value[3..];
    PlainIsKept(value);
    PlainIsKept(one);
    PlainIsKept(two);
  }

  lemma PlainIsKept(value: string)
    requires value != [] && value[0] != '\r' && value[0] != '\n'
    ensures Normalised(value) == [value[0]] + Normalised(value[1..])
    ensures Admissible(value) <==> !Forbidden(value[0]) && Admissible(value[1..])
  {
  }

  lemma ReadTriple(value: string, rest: string)
    requires TRIPLE <= value && ReadsAs(value[3..], rest)
    ensures ReadsAs(value, rest)
  {
    var tail := Escaped(value[3..]) + TRIPLE + rest;
    var third := [BACKSLASH, Q] + tail;
    var second := [Q] + third;
    assert Escaped(value) + TRIPLE + rest == [Q] + second;
    EscapedCharacter(Q, tail);
    assert ([Q] + third)[1] == BACKSLASH && ([Q] + second)[2] == BACKSLASH;
    PlainCharacter(Q, third);
    PlainCharacter(Q, second);
    QuotesAreAdmissible(value);
  }

  /** The last one or two quotes run into the closing delimiter. */
  lemma ReadLastQuotes(value: string, rest: string)
    requires (value == [Q] || value == [Q, Q]) && Unquoted(rest)
    ensures ReadsAs(value, rest)
  {
    var one := value[1..];
    assert one == [] || (one == [Q] && one[1..] == []);
    assert Escaped([]) == [] && Normalised([]) == [] && Admissible([]);
    assert Escaped(value) == value && Normalised(value) == value && Admissible(value);
    var s := value + TRIPLE + rest;
    assert TRIPLE <= s && s[3..] == value + rest;
    assert (value + rest)[|value|..] == rest;
  }

  lemma ReadBackslash(value: string, rest: string)
    requires value != [] && value[0] == BACKSLASH && ReadsAs(value[1..], rest)
    ensures ReadsAs(value, rest)
  {
    var tail := Escaped(value[1..]) + TRIPLE + rest;
    assert Escaped(value) + TRIPLE + rest == [BACKSLASH, BACKSLASH] + tail;
    EscapedCharacter(BACKSLASH, tail);
  }

  /** Any other character is read as itself, or refused. */
  lemma ReadPlain(value: string, rest: string)
    requires value != [] && value[0] != BACKSLASH && !(TRIPLE <= value) && !(TRIPLE <= Escaped(value) + TRIPLE + rest)
    requires !(|value| > 1 && value[0] == '\r' && value[1] == '\n') && ReadsAs(value[1..], rest)
    ensures ReadsAs(value, rest)
  {
    hide MultilineBody, Escaped;
    var tail := Escaped(value[1..]) + TRIPLE + rest;
    EscapedStep(value);
    Reassociate([value[0]], Escaped(value[1..]), TRIPLE, rest);
    TailHead(value[1..], rest);
    if value[0] == '\n' {
      NewlineCharacter(tail);
    } else {
      PlainCharacter(value[0], tail);
    }
  }

  lemma EscapedHead(value: string)
    ensures value == [] ==> Escaped(value) == []
    ensures value != [] ==> Escaped(value) != [] && Escaped(value)[0] == value[0]
  {
  }

  lemma TailHead(value: string, rest: string)
    ensures var tail := Escaped(value) + TRIPLE + rest; tail != [] && tail[0] == if value == [] then Q else value[0]
  {
  }

  lemma ReadReturn(value: string, rest: string)
    requires |value| > 1 && value[0] == '\r' && value[1] == '\n' && ReadsAs(value[2..], rest)
    ensures ReadsAs(value, rest)
  {
    var tail := Escaped(value[2..]) + TRIPLE + rest;
    var s := Escaped(value) + TRIPLE + rest;
    assert value[1..][1..] == value[2..];
    assert Escaped(value[1..]) == ['\n'] + Escaped(value[2..]);
    assert s == ['\r', '\n'] + tail && s[2..] == tail;
  }

  /** A quote that is neither the start of three nor at the very end is followed by something else. */
  lemma LoneQuotes(value: string, rest: string)
    requires value != [] && value[0] == Q && !(TRIPLE <= value) && value != [Q] && value != [Q, Q]
    ensures !(TRIPLE <= Escaped(value) + TRIPLE + rest)
  {
    var s := Escaped(value) + TRIPLE + rest;
    EscapedHead(value[1..]);
    assert Escaped(value) == [Q] + Escaped(value[1..]);
    if value[1] == Q {
      assert |value| > 2 && value[2] != Q;
      assert value[1..][1..] == value[2..] && value[1..][0] == Q;
      EscapedHead(value[2..]);
      assert Escaped(value[1..]) == [Q] + Escaped(value[2..]);
      assert s[2] == Escaped(value[2..])[0] == value[2];
    } else {
      assert s[1] == Escaped(value[1..])[0] == value[1];
    }
  }

  lemma {:induction false} EscapedTextReadsBack(value: string, rest: string)
    requires Unquoted(rest)
    ensures ReadsAs(value, rest)
    decreases |value|
  {
    hide ReadsAs, MultilineBody, Escaped;
    if value == [] {
      ReadNothing(rest);
    } else if TRIPLE <= value {
      EscapedTextReadsBack(value[3..], rest);
      ReadTriple(value, rest);
    } else if value == [Q] || value == [Q, Q] {
      ReadLastQuotes(value, rest);
    } else if value[0] == BACKSLASH {
      EscapedTextReadsBack(value[1..], rest);
      ReadBackslash(value, rest);
    } else if |value| > 1 && value[0] == '\r' && value[1] == '\n' {
      EscapedTextReadsBack(value[2..], rest);
      ReadReturn(value, rest);
    } else {
      EscapedTextReadsBack(value[1..], rest);
      if value[0] == Q { LoneQuotes(value, rest); } else { PlainStart(value, rest); }
      ReadPlain(value, rest);
    }
  }

  lemma PlainStart(value: string, rest: string)
    requires value != [] && value[0] != Q
    ensures !(TRIPLE <= Escaped(value) + TRIPLE + rest)
  {
  }

  /** No control character but tab and line feed. */
  predicate Legal(value: string) {
    forall i :: 0 <= i < |value| ==> value[i] == '\n' || !Forbidden(value[i])
  }

  lemma {:induction false} NormalisedShrinks(value: string)
    ensures |Normalised(value)| <= |value|
    ensures Normalised(value) == value && Admissible(value) <==> Legal(value)
    decreases |value|
  {
    if value != [] {
      if |value| > 1 && value[0] == '\r' && value[1] == '\n' {
        NormalisedShrinks(value[2..]);
        assert |Normalised(value)| < |value| && Forbidden(value[0]);
      } else {
        NormalisedShrinks(value[1..]);
        assert value == [value[0]] + value[1..];
        assert Normalised(value) == value <==> Normalised(value[1..]) == value[1..];
        assert Legal(value) <==> (value[0] == '\n' || !Forbidden(value[0])) && Legal(value[1..]);
      }
    }
  }

  /**
   The rendered body reads back as itself, with nothing left over, exactly when it has no
   control character but tab and line feed; quotes and backslashes in any number and
   anywhere, and leading newlines, are always preserved.
   */
  lemma MultilineRoundTrip(value: string, rest: string)
    requires Unquoted(rest)
    ensures ReadMultiline(TomlMultiline(value) + rest) == Some((value, rest)) <==> Legal(value)
  {
    TwoReplacementsAreOnePass(value);
    EscapedTextReadsBack(value, rest);
    NormalisedShrinks(value);
    var s := TomlMultiline(value) + rest;
    assert s[4..] == Escaped(value) + TRIPLE + rest;
  }

  // ---------------------------------------------------------------- toml_basic

  const HEX := "0123456789abcdef"

  /** One character of `json.dumps(value, ensure_ascii=False)`. */
  function JsonEscape(c: char): string {
    if c == Q then [BACKSLASH, Q]
    else if c == BACKSLASH then [BACKSLASH, BACKSLASH]
    else if c == '\n' then "\\n"
    else if c == '\r' then "\\r"
    else if c == '\t' then "\\t"
    else if c == '\U{000C}' then "\\f"
    else if c == '\U{0008}' then "\\b"
    else if c < ' ' then [BACKSLASH, 'u', '0', '0', if c < '\U{0010}' then '0' else '1', HEX[c as int % 16]]
    else [c]
  }

  function JsonBody(value: string): string {
    if value == [] then [] else JsonEscape(value[0]) + JsonBody(value[1..])
  }

  function TomlBasic(value: string): string {
    [Q] + JsonBody(value) + [Q]
  }

  lemma ControlEscapeReads(c: char, tail: string)
    requires c < ' ' && c !in {'\n', '\r', '\t', '\U{000C}', '\U{0008}'}
    ensures Escape(JsonEscape(c)[1..] + tail) == Some(([c], tail))
  {
    var e := JsonEscape(c);
    var d := [e[2], e[3], e[4], e[5]];
    assert e[1..] + tail == ['u'] + (d + tail);
    assert (['u'] + (d + tail))[1..] == d + tail && (d + tail)[..4] == d && (d + tail)[4..] == tail;
    FourDigits(e[2], e[3], e[4], e[5]);
    assert HexValue(HEX[c as int % 16]) == Some(c as int % 16);
  }

  lemma FourDigits(a: char, b: char, c: char, d: char)
    requires HexValue(a).Some? && HexValue(b).Some? && HexValue(c).Some? && HexValue(d).Some?
    ensures HexNumber([a, b, c, d]) ==
              Some(((HexValue(a).value * 16 + HexValue(b).value) * 16 + HexValue(c).value) * 16 + HexValue(d).value)
  {
    assert [a, b, c, d][..3] == [a, b, c] && [a, b, c][..2] == [a, b] && [a, b][..1] == [a] && [a][..0] == [];
    assert HexNumber([a]) == HexValue(a);
    assert HexNumber([a, b]) == Some(HexValue(a).value * 16 + HexValue(b).value);
    assert HexNumber([a, b, c]) == Some((HexValue(a).value * 16 + HexValue(b).value) * 16 + HexValue(c).value);
  }

  lemma OneBasicCharacter(c: char, tail: string)
    requires c != '\U{007F}'
    ensures BasicBody(JsonEscape(c) + tail) == Put([c], BasicBody(tail))
  {
    var s := JsonEscape(c) + tail;
    if JsonEscape(c) == [c] {
      assert s[1..] == tail;
    } else {
      assert s[1..] == JsonEscape(c)[1..] + tail;
      if c < ' ' && c !in {'\n', '\r', '\t', '\U{000C}', '\U{0008}'} {
        ControlEscapeReads(c, tail);
      } else {
        assert s[1..][1..] == tail;
      }
    }
  }

  lemma {:induction false} JsonBodyReadsBack(value: string, rest: string)
    ensures BasicBody(JsonBody(value) + [Q] + rest) == if '\U{007F}' in value then None else Some((value, rest))
    decreases |value|
  {
    if value == [] {
      assert JsonBody(value) + [Q] + rest == [Q] + rest && ([Q] + rest)[1..] == rest;
    } else {
      var c, tail := value[0], JsonBody(value[1..]) + [Q] + rest;
      assert JsonBody(value) + [Q] + rest == JsonEscape(c) + tail;
      JsonBodyReadsBack(value[1..], rest);
      assert value == [c] + value[1..];
      if c == '\U{007F}' {
        assert (JsonEscape(c) + tail)[0] == c;
      } else {
        OneBasicCharacter(c, tail);
      }
    }
  }

  /**
   A JSON string is a TOML basic string for the same text exactly when the text has no
   delete character, which JSON leaves as it is and TOML forbids.
   */
  lemma BasicRoundTrip(value: string, rest: string)
    ensures ReadBasic(TomlBasic(value) + rest) == Some((value, rest)) <==> '\U{007F}' !in value
  {
    JsonBodyReadsBack(value, rest);
    assert (TomlBasic(value) + rest)[1..] == JsonBody(value) + [Q] + rest;
  }
}
