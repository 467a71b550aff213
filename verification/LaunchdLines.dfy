/**
 The lines of a launchd record as they are written: which of them open and close a block, which
 look like a pid entry, and which number a pid entry carries.
 */
module LaunchdLines {
  import opened Wrappers
  import opened Text
  import opened LaunchdRecord

  ghost predicate Spaces(s: string) {
    forall k :: 0 <= k < |s| ==> PySpace(s[k])
  }

  // ---------------------------------------------------------------- stripped lines

  lemma StripAround(s: string) returns (b: string, c: string)
    ensures s == b + Strip(s, PySpace) + c && Spaces(b) && Spaces(c)
  {
    hide PySpace, Strip;
    if Strip(s, PySpace) == "" {
      AllStripped(s);
      b, c := s, "";
      assert s == b + "" + c;
    } else {
      var i, j := StripSpan(s, PySpace);
      b, c := s[..i], s[j..];
      assert s == s[..i] + s[i..j] + s[j..];
    }
  }

  lemma AllStripped(s: string)
    requires Strip(s, PySpace) == ""
    ensures Spaces(s)
  {
  }

  /** Stripping takes nothing but the whitespace around a text that neither begins nor ends with any. */
  lemma AroundStrip(b: string, v: string, c: string)
    requires Spaces(b) && Spaces(c) && v != "" && !PySpace(v[0]) && !PySpace(v[|v| - 1])
    ensures Strip(b + v + c, PySpace) == v
  {
    hide PySpace, Strip;
    var s := b + v + c;
    assert forall k :: |b + v| <= k < |s| ==> s[k] == c[k - |b + v|];
    StripIs(s, |b|, |b + v|, PySpace);
    assert s[|b|..|b + v|] == v;
  }

  lemma MarksAreNoSpace()
    ensures !PySpace('{') && !PySpace('}') && !PySpace('=') && !PySpace('p') && !PySpace('d')
  {
  }

  /** A line opens a block exactly when a brace ends it, but for whitespace. */
  lemma OpensExactly(line: string)
    ensures Opens(line) <==> exists x, y :: line == x + "{" + y && Spaces(y)
  {
    MarksAreNoSpace();
    hide PySpace, Strip;
    if Opens(line) {
      var b, c := StripAround(line);
      var t := Strip(line, PySpace);
      assert line == (b + t[..|t| - 1]) + "{" + c;
    }
    if x, y :| line == x + "{" + y && Spaces(y) { EndsWithBrace(line, x, y); }
  }

  lemma EndsWithBrace(line: string, x: string, y: string)
    requires line == x + "{" + y && Spaces(y)
    ensures Opens(line)
  {
    MarksAreNoSpace();
    hide PySpace, Strip;
    assert line[|x|] == '{';
    if Strip(line, PySpace) == "" { AllStripped(line); }
    var a, b := StripSpan(line, PySpace);
    assert forall k :: |x| < k < |line| ==> line[k] == y[k - |x| - 1];
    assert b == |x| + 1 && line[a..b][|line[a..b]| - 1] == line[|x|];
  }

  /** A line closes a block exactly when it is a brace, but for whitespace. */
  lemma ClosesExactly(line: string)
    ensures Closes(line) <==> exists x, y :: line == x + "}" + y && Spaces(x) && Spaces(y)
  {
    MarksAreNoSpace();
    hide PySpace, Strip;
    if Closes(line) {
      var b, c := StripAround(line);
      assert line == b + "}" + c;
    }
    if x, y :| line == x + "}" + y && Spaces(x) && Spaces(y) { AroundStrip(x, "}", y); }
  }

  // ---------------------------------------------------------------- pid entries

  /** Whitespace, `pid`, whitespace and an equals sign. */
  ghost predicate PidEntry(line: string) {
    exists x, y, z :: IsPidEntry(line, x, y, z)
  }

  ghost predicate IsPidEntry(line: string, x: string, y: string, z: string) {
    line == x + "pid" + y + "=" + z && Spaces(x) && Spaces(y)
  }

  lemma TrimTo(s: string, y: string, z: string)
    requires s == y + "=" + z && Spaces(y)
    ensures TrimLeft(s, PySpace) == "=" + z
  {
    MarksAreNoSpace();
    hide PySpace;
    assert s[|y|] == '=' && s[|y|..] == "=" + z;
    TrimLeftIs(s, PySpace, |y|);
  }

  lemma EntryLooksLikePid(line: string, x: string, y: string, z: string)
    requires IsPidEntry(line, x, y, z)
    ensures LooksLikePid(line)
  {
    MarksAreNoSpace();
    hide PySpace, Strip, TrimLeft;
    var n := |x| + 3 + |y|;
    assert line[|x|] == 'p' && line[n] == '=';
    if Strip(line, PySpace) == "" { AllStripped(line); }
    var a, b := StripSpan(line, PySpace);
    assert forall k :: 0 <= k < |x| ==> line[k] == x[k];
    assert a == |x| && n < b;
    var s := line[a..b];
    assert s == "pid" + (y + "=" + line[n + 1..b]);
    assert s[..3] == "pid" && s[3..] == y + "=" + line[n + 1..b];
    TrimTo(s[3..], y, line[n + 1..b]);
  }

  /** A line looks like a pid entry exactly when it is written as one. */
  lemma LooksLikePidExactly(line: string)
    ensures LooksLikePid(line) <==> PidEntry(line)
  {
    hide PySpace, Strip, LooksLikePid, IsPidEntry;
    if x, y, z :| IsPidEntry(line, x, y, z) { EntryLooksLikePid(line, x, y, z); }
    if LooksLikePid(line) { PidLineIsEntry(line); }
  }

  lemma PidLineIsEntry(line: string)
    requires LooksLikePid(line)
    ensures PidEntry(line)
  {
    hide PySpace, Strip, TrimLeft;
    var s := Strip(line, PySpace);
    var b, c := StripAround(line);
    var rest := TrimLeft(s[3..], PySpace);
    var y := TrimmedFront(s[3..]);
    PidParts(s, y, rest);
    hide LooksLikePid;
    Regroup(line, b, y, rest[1..], c);
    assert IsPidEntry(line, b, y, rest[1..] + c);
  }

  lemma TrimmedFront(s: string) returns (y: string)
    ensures s == y + TrimLeft(s, PySpace) && Spaces(y)
  {
    hide PySpace;
    y := s[..|s| - |TrimLeft(s, PySpace)|];
  }

  lemma PidParts(s: string, y: string, rest: string)
    requires "pid" <= s && s[3..] == y + rest && rest != "" && rest[0] == '='
    ensures s == "pid" + (y + ("=" + rest[1..]))
  {
    assert s[..3] == "pid" && s == s[..3] + s[3..] && rest == "=" + rest[1..];
  }

  lemma Regroup(line: string, b: string, y: string, z: string, c: string)
    requires line == b + ("pid" + (y + ("=" + z))) + c
    ensures line == b + "pid" + y + "=" + (z + c)
  {
  }

  // ---------------------------------------------------------------- the number

  lemma {:induction false} DecimalPositive(s: string)
    requires s != "" && (forall i :: 0 <= i < |s| ==> Digit(s[i])) && s[0] != '0'
    ensures Decimal(s) > 0
  {
    if |s| > 1 { DecimalPositive(s[..|s| - 1]); }
  }

  lemma DivideByTen(m: nat, d: nat)
    requires d < 10
    ensures (10 * m + d) / 10 == m && (10 * m + d) % 10 == d
  {
  }

  /** A number without leading zeros is written with its own digits. */
  lemma {:induction false} DigitsOfDecimal(s: string)
    requires s != "" && (forall i :: 0 <= i < |s| ==> Digit(s[i])) && s[0] != '0'
    ensures Digits(Decimal(s)) == s
  {
    hide *;
    var n := |s| - 1;
    var front, c := s[..n], s[n];
    assert s == front + [c];
    LastIs(c);
    DecimalSnoc(front, c);
    DivideByTen(Decimal(front), DigitValue(c));
    DigitsEnd(Decimal(s));
    if n > 0 {
      assert front[0] == s[0];
      DigitsOfDecimal(front);
      DecimalPositive(front);
    } else {
      NoDigits();
      assert front == "";
    }
  }

  lemma NoDigits()
    ensures Decimal("") == 0
  {
  }

  lemma LastIs(c: char)
    requires Digit(c)
    ensures DigitValue(c) < 10 && "0123456789"[DigitValue(c)] == c
  {
  }

  lemma {:induction false} DigitsStart(n: nat)
    requires n > 0
    ensures Digits(n)[0] != '0'
  {
    DigitsEnd(n);
    hide Digits;
    if n >= 10 {
      DigitsStart(n / 10);
      DigitsSpell(n / 10);
    }
  }

  /** A pid entry carries a number exactly when it is a tab, `pid = ` and the number's decimal digits, at most ten. */
  lemma PidsExactly(line: string, n: nat)
    ensures PidOf(line) == Some(n) <==> n > 0 && |Digits(n)| <= 10 && line == "\tpid = " + Digits(n)
  {
    hide Digits, Digit, Decimal;
    if PidOf(line) == Some(n) {
      var digits := line[7..];
      assert line == line[..7] + digits;
      DigitsOfDecimal(digits);
      DecimalPositive(digits);
    }
    if n > 0 && |Digits(n)| <= 10 && line == "\tpid = " + Digits(n) {
      DigitsSpell(n);
      DigitsStart(n);
      assert line[..7] == "\tpid = " && line[7..] == Digits(n);
    }
  }
}
