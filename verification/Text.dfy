/** The string operations of the host languages that several modules share. */
module Text {

  /** The characters `str.strip()` removes and `\s` matches. */
  predicate PySpace(c: char) {
    || '\U{0009}' <= c <= '\U{000D}' || '\U{001C}' <= c <= '\U{0020}' || c == '\U{0085}' || c == '\U{00A0}'
       || c == '\U{1680}'
    || '\U{2000}' <= c <= '\U{200A}' || c == '\U{2028}' || c == '\U{2029}' || c == '\U{202F}' || c == '\U{205F}'
       || c == '\U{3000}'
  }

  function TrimLeft(s: string, space: char -> bool): (t: string)
    ensures t != [] ==> !space(t[0])
    ensures |t| <= |s| && t == s[|s| - |t|..]
    ensures forall i :: 0 <= i < |s| - |t| ==> space(s[i])
  {
    if s != [] && space(s[0]) then TrimLeft(s[1..], space) else s
  }

  function TrimRight(s: string, space: char -> bool): (t: string)
    ensures t != [] ==> !space(t[|t| - 1])
    ensures t <= s
    ensures forall i :: |t| <= i < |s| ==> space(s[i])
  {
    if s != [] && space(s[|s| - 1]) then TrimRight(s[..|s| - 1], space) else s
  }

  function Strip(s: string, space: char -> bool): (t: string)
    ensures t != [] ==> !space(t[0]) && !space(t[|t| - 1])
    ensures t == [] ==> forall i :: 0 <= i < |s| ==> space(s[i])
  {
    TrimRight(TrimLeft(s, space), space)
  }

  predicate Digit(c: char) {
    '0' <= c <= '9'
  }

  function DigitValue(c: char): nat
    requires Digit(c)
  {
    (c - '0') as nat
  }

  /** The number a run of decimal digits denotes. */
  function Decimal(s: string): nat
    requires forall i :: 0 <= i < |s| ==> Digit(s[i])
  {
    if s == [] then 0 else 10 * Decimal(s[..|s| - 1]) + DigitValue(s[|s| - 1])
  }

  // ---------------------------------------------------------------- stripping

  lemma {:induction false} TrimLeftIs(s: string, space: char -> bool, n: nat)
    requires n <= |s| && (forall i :: 0 <= i < n ==> space(s[i])) && (n < |s| ==> !space(s[n]))
    ensures TrimLeft(s, space) == s[n..]
    decreases n
  {
    if n > 0 { TrimLeftIs(s[1..], space, n - 1); }
  }

  lemma {:induction false} RightIs(s: string, b: nat, space: char -> bool)
    requires b <= |s| && (forall k :: b <= k < |s| ==> space(s[k])) && (b > 0 ==> !space(s[b - 1]))
    ensures TrimRight(s, space) == s[..b]
  {
    if b < |s| {
      RightIs(s[..|s| - 1], b, space);
      assert s[..|s| - 1][..b] == s[..b];
    }
  }

  /** The text between its outermost characters that are no space. */
  ghost predicate Span(s: string, a: nat, b: nat, space: char -> bool) {
    && a < b <= |s| && !space(s[a]) && !space(s[b - 1])
    && (forall k :: 0 <= k < a ==> space(s[k])) && forall k :: b <= k < |s| ==> space(s[k])
  }

  lemma StripIs(s: string, a: nat, b: nat, space: char -> bool)
    requires Span(s, a, b, space)
    ensures Strip(s, space) == s[a..b]
  {
    hide TrimLeft, TrimRight;
    TrimLeftIs(s, space, a);
    RightIs(s[a..], b - a, space);
    assert s[a..][..b - a] == s[a..b];
  }

  lemma StripSpan(s: string, space: char -> bool) returns (a: nat, b: nat)
    requires Strip(s, space) != ""
    ensures Span(s, a, b, space) && Strip(s, space) == s[a..b]
  {
    hide TrimLeft, TrimRight;
    var t := TrimLeft(s, space);
    var u := TrimRight(t, space);
    a := |s| - |t|;
    b := a + |u|;
    assert t == s[a..] && u == t[..|u|] == s[a..b];
    assert forall k :: b <= k < |s| ==> s[k] == t[k - a];
  }

  lemma SpaceStrips(s: string, space: char -> bool)
    requires forall k :: 0 <= k < |s| ==> space(s[k])
    ensures Strip(s, space) == ""
  {
    hide TrimLeft, TrimRight;
    TrimLeftIs(s, space, |s|);
    RightIs("", 0, space);
  }

  // ---------------------------------------------------------------- numbers in decimal

  function Digits(n: nat): string {
    (if n < 10 then "" else Digits(n / 10)) + ["0123456789"[n % 10]]
  }

  lemma LastDigit(d: nat)
    requires d < 10
    ensures Digit("0123456789"[d]) && DigitValue("0123456789"[d]) == d
  {
  }

  lemma DecimalSnoc(s: string, c: char)
    requires (forall i :: 0 <= i < |s| ==> Digit(s[i])) && Digit(c)
    ensures (forall i :: 0 <= i < |s + [c]| ==> Digit((s + [c])[i]))
                && Decimal(s + [c]) == 10 * Decimal(s) + DigitValue(c)
  {
  }

  lemma DigitsEnd(n: nat)
    ensures Digits(n) == (if n < 10 then "" else Digits(n / 10)) + ["0123456789"[n % 10]]
  {
  }

  /** A length is written in decimal digits, which spell it. */
  lemma {:induction false} DigitsSpell(n: nat)
    ensures Digits(n) != "" && (forall i :: 0 <= i < |Digits(n)| ==> Digit(Digits(n)[i])) && Decimal(Digits(n)) == n
  {
    DigitsEnd(n);
    LastDigit(n % 10);
    hide Digits, Digit, DigitValue;
    if n < 10 {
      DecimalSnoc("", "0123456789"[n % 10]);
    } else {
      DigitsSpell(n / 10);
      DecimalSnoc(Digits(n / 10), "0123456789"[n % 10]);
    }
  }
}
