/**
 Where the environment parser and the renderers find a line's key: on one line they can
 only find the same one.
 */
module EnvironmentKeys {
  import opened Wrappers
  import opened Text
  import opened EnvironmentFile
  import opened EnvironmentRender

  // ---------------------------------------------------------------- where a line's key stands

  /** The start of the run of key characters that ends at `e`. */
  function KeyFrom(s: string, e: nat): (r: nat)
    requires e <= |s|
    ensures r <= e && (forall k :: r <= k < e ==> KeyChar(s[k])) && (r > 0 ==> !KeyChar(s[r - 1]))
  {
    if e > 0 && KeyChar(s[e - 1]) then KeyFrom(s, e - 1) else e
  }

  /** The run of key characters before the first equals sign. */
  function KeyBefore(s: string): string {
    s[KeyFrom(s, IndexOf(s, '='))..IndexOf(s, '=')]
  }

  /** The text has an equals sign, no hash before it, and just before it the key. */
  ghost predicate Holds(s: string, key: string) {
    && IndexOf(s, '=') < |s| && KeyBefore(s) == key
    && forall k :: 0 <= k < IndexOf(s, '=') ==> s[k] != '#'
  }

  /** A key that stands at `at`, after something that is no key character. */
  ghost predicate StandsAt(s: string, at: nat, key: string) {
    && at + |key| < |s| && s[at..at + |key|] == key && s[at + |key|] == '='
    && (forall k :: 0 <= k < |key| ==> KeyChar(key[k]))
    && (at > 0 ==> !KeyChar(s[at - 1]))
    && (forall k :: 0 <= k < at ==> s[k] != '=')
  }

  lemma StandingKeyIsBefore(s: string, at: nat, key: string)
    requires StandsAt(s, at, key)
    ensures IndexOf(s, '=') == at + |key| && KeyBefore(s) == key
  {
    var e := at + |key|;
    forall k | at <= k < e ensures KeyChar(s[k]) && s[k] != '=' {
      assert s[k] == s[at..e][k - at];
    }
    hide KeyChar;
  }

  /** Whitespace and key characters only. */
  ghost predicate Quiet(s: string, n: nat) {
    n <= |s| && forall k :: 0 <= k < n ==> RustSpace(s[k]) || KeyChar(s[k])
  }

  lemma QuietCharacter(c: char)
    requires RustSpace(c) || KeyChar(c)
    ensures c != '=' && c != '#' && (RustSpace(c) ==> !KeyChar(c))
  {
  }

  lemma QuietStands(s: string, at: nat, key: string)
    requires at + |key| < |s| && Quiet(s, at) && s[at..at + |key|] == key && s[at + |key|] == '='
    requires (forall k :: 0 <= k < |key| ==> KeyChar(key[k])) && (at > 0 ==> RustSpace(s[at - 1]))
    ensures StandsAt(s, at, key)
  {
  }

  lemma QuietHolds(s: string, at: nat, key: string)
    requires at + |key| < |s| && Quiet(s, at) && s[at..at + |key|] == key && s[at + |key|] == '='
    requires (forall k :: 0 <= k < |key| ==> KeyChar(key[k])) && (at > 0 ==> RustSpace(s[at - 1]))
    ensures Holds(s, key)
  {
    hide RustSpace, KeyChar, KeyBefore, StandsAt;
    QuietStands(s, at, key);
    StandingKeyIsBefore(s, at, key);
    forall k | 0 <= k < at + |key| ensures s[k] != '#' {
      if k >= at { assert s[k] == s[at..at + |key|][k - at]; }
      QuietCharacter(s[k]);
    }
  }

  lemma ExportLetters()
    ensures forall k :: 0 <= k < 6 ==> KeyChar("export"[k])
  {
  }

  lemma ExportIsQuiet(line: string)
    requires Exported(line)
    ensures var from := |line| - |AfterExport(line)|;
            && 6 < from <= |line| && Quiet(line, from)
            && RustSpace(line[from - 1])
  {
    ExportLetters();
    hide RustSpace, KeyChar;
    var from := |line| - |AfterExport(line)|;
    forall k | 0 <= k < from ensures RustSpace(line[k]) || KeyChar(line[k]) {
      if k < 6 { assert line[k] == "export"[k]; } else { assert line[k] == line[6..][k - 6]; }
    }
  }

  lemma BodyStands(line: string)
    requires ParseBody(AfterExport(line)).Assign?
    ensures var at, key := |line| - |AfterExport(line)|, ParseBody(AfterExport(line)).key;
            && 0 <= at && at + |key| < |line| && Quiet(line, at) && line[at..at + |key|] == key
               && line[at + |key|] == '='
            && (forall k :: 0 <= k < |key| ==> KeyChar(key[k])) && (at > 0 ==> RustSpace(line[at - 1]))
  {
    hide RustSpace, KeyChar, AfterExport, Exported, Unquote;
    BodyIsATail(line);
    if Exported(line) { ExportIsQuiet(line); } else { AfterNoExport(line); }
  }

  /** Where a stripped line stands in the raw one. */
  lemma StrippedStands(raw: string) returns (a: nat)
    ensures var line := Strip(raw, RustSpace);
            a + |line| <= |raw| && raw[a..a + |line|] == line && forall k :: 0 <= k < a ==> RustSpace(raw[k])
    ensures forall k :: 0 <= k < |raw| && !RustSpace(raw[k]) ==> a <= k && Strip(raw, RustSpace) != ""
  {
    hide RustSpace;
    var left := TrimLeft(raw, RustSpace);
    a := |raw| - |left|;
    var line := Strip(raw, RustSpace);
  }

  lemma InPlace(raw: string, a: nat, line: string, at: nat, key: string)
    requires a + |line| <= |raw| && raw[a..a + |line|] == line && (forall k :: 0 <= k < a ==> RustSpace(raw[k]))
    requires at + |key| < |line| && Quiet(line, at) && line[at..at + |key|] == key && line[at + |key|] == '='
    requires (forall k :: 0 <= k < |key| ==> KeyChar(key[k])) && (at > 0 ==> RustSpace(line[at - 1]))
    ensures Holds(raw, key)
  {
    hide RustSpace, KeyChar;
    forall k | 0 <= k < |line| ensures raw[a + k] == line[k] { assert raw[a + k] == raw[a..a + |line|][k]; }
    forall k | 0 <= k < a + at ensures RustSpace(raw[k]) || KeyChar(raw[k]) {
      if k >= a { assert raw[k] == line[k - a]; }
    }
    if at > 0 { assert raw[a + at - 1] == line[at - 1]; }
    QuietHolds(raw, a + at, key);
  }

  /** A line that assigns a key holds it before its first equals sign. */
  lemma AssignmentHolds(raw: string)
    requires ParseLine(raw).Assign?
    ensures Holds(raw, ParseLine(raw).key)
  {
    hide Strip, AfterExport, ParseBody, Holds, Quiet, RustSpace, KeyChar;
    var line := Strip(raw, RustSpace);
    BodyStands(line);
    var a := StrippedStands(raw);
    InPlace(raw, a, line, |line| - |AfterExport(line)|, ParseBody(AfterExport(line)).key);
  }

  lemma HeldLineIsNoSkip(raw: string, key: string)
    requires Holds(raw, key)
    ensures ParseLine(raw) != Skip
  {
  }

  /** So a text that holds a key either assigns that key or is malformed. */
  lemma HeldLine(raw: string, key: string)
    requires Holds(raw, key)
    ensures ParseLine(raw) == Bad || (ParseLine(raw).Assign? && ParseLine(raw).key == key)
  {
    hide ParseLine, Holds;
    HeldLineIsNoSkip(raw, key);
    if ParseLine(raw).Assign? {
      AssignmentHolds(raw);
      OneKeyHeld(raw, key, ParseLine(raw).key);
    }
  }

  lemma OneKeyHeld(s: string, a: string, b: string)
    requires Holds(s, a) && Holds(s, b)
    ensures a == b
  {
  }

  // ---------------------------------------------------------------- the key the renderers match

  lemma PySpaceIsNoKey(c: char)
    requires PySpace(c) || Blank(c)
    ensures c != '=' && !KeyChar(c)
  {
  }

  lemma KeyAtStands(s: string, at: nat, key: string)
    requires at <= |s| && KeyAt(s, at) == Some(key) && (at > 0 ==> !KeyChar(s[at - 1]))
                 && forall k :: 0 <= k < at ==> s[k] != '='
    ensures StandsAt(s, at, key)
  {
  }

  lemma ExportGap(s: string)
    requires "export" <= s && |s| > 6 && Blank(s[6])
    ensures var at := BlankRun(s, 6); 6 < at && !KeyChar(s[at - 1]) && forall k :: 0 <= k < at ==> s[k] != '='
  {
  }

  /** Where the renderers' pattern finds a key on the stripped line. */
  lemma PatternStands(s: string, key: string)
    requires KeyAt(s, 0) == Some(key)
             || ("export" <= s && |s| > 6 && Blank(s[6]) && KeyAt(s, BlankRun(s, 6)) == Some(key))
    ensures StandsAt(s, if KeyAt(s, 0) == Some(key) then 0 else BlankRun(s, 6), key)
    ensures KeyAt(s, 0) != Some(key) ==> 6 < BlankRun(s, 6)
  {
    hide StandsAt, KeyAt, KeyChar, Blank;
    if KeyAt(s, 0) == Some(key) {
      KeyAtStands(s, 0, key);
    } else {
      ExportGap(s);
      KeyAtStands(s, BlankRun(s, 6), key);
    }
  }

  lemma StandsInPlace(raw: string, a: nat, s: string, at: nat, key: string)
    requires a + |s| <= |raw| && raw[a..a + |s|] == s && (forall k :: 0 <= k < a ==> PySpace(raw[k]))
                 && StandsAt(s, at, key)
    ensures StandsAt(raw, a + at, key)
  {
    hide PySpace, KeyChar;
    forall k | 0 <= k < |s| ensures raw[a + k] == s[k] { assert raw[a + k] == raw[a..a + |s|][k]; }
    forall k | 0 <= k < a + at ensures raw[k] != '=' {
      if k < a { PySpaceIsNoKey(raw[k]); } else { assert raw[k] == s[k - a]; }
    }
    if at == 0 && a > 0 { PySpaceIsNoKey(raw[a - 1]); }
    if at > 0 { assert raw[a + at - 1] == s[at - 1]; }
  }

  lemma PyStrippedStands(raw: string) returns (a: nat)
    ensures var s := Strip(raw, PySpace);
            a + |s| <= |raw| && raw[a..a + |s|] == s && forall k :: 0 <= k < a ==> PySpace(raw[k])
  {
    hide PySpace;
    var left := TrimLeft(raw, PySpace);
    a := |raw| - |left|;
    var s := Strip(raw, PySpace);
  }

  lemma PatternOf(raw: string)
    requires AssignedKey(raw).Some?
    ensures var s, key := Strip(raw, PySpace), AssignedKey(raw).value;
            KeyAt(s, 0) == Some(key) || ("export" <= s && |s| > 6 && Blank(s[6])
                                         && KeyAt(s, BlankRun(s, 6)) == Some(key))
  {
  }

  /** Where the renderers' pattern finds its key. */
  lemma MatchedKeyPlace(raw: string) returns (a: nat, at: nat)
    requires AssignedKey(raw).Some?
    ensures var s := Strip(raw, PySpace);
            && a + |s| <= |raw| && raw[a..a + |s|] == s && (forall k :: 0 <= k < a ==> PySpace(raw[k]))
            && at <= |s| && StandsAt(raw, a + at, AssignedKey(raw).value)
            && (at == 0 || (6 < at && forall k :: 6 <= k < at ==> Blank(s[k])))
  {
    hide Strip, AssignedKey, KeyAt, StandsAt, PySpace, KeyChar;
    PatternOf(raw);
    var s, key := Strip(raw, PySpace), AssignedKey(raw).value;
    a := PyStrippedStands(raw);
    at := if KeyAt(s, 0) == Some(key) then 0 else BlankRun(s, 6);
    PatternStands(s, key);
    StandsInPlace(raw, a, s, at, key);
  }

  /** A text that holds an unmanaged key is no managed assignment and not the header. */
  lemma HeldIsUnmanaged(plan: Plan, s: string, key: string)
    requires Valid(plan) && Holds(s, key) && key !in Keys(plan.managed)
    ensures ManagedKey(plan, s).None? && s != plan.header
  {
    hide AssignedKey, KeyBefore, Clean, Keys, ValidPairs, DistinctKeys, SecretsAreCleared;
    if AssignedKey(s).Some? {
      var a, at := MatchedKeyPlace(s);
      StandingKeyIsBefore(s, a + at, AssignedKey(s).value);
    }
  }

  /** A matched line that parses assigns the matched key. */
  lemma MatchedLineAssigns(raw: string)
    requires AssignedKey(raw).Some? && ParseLine(raw) != Bad
    ensures ParseLine(raw).Assign? && ParseLine(raw).key == AssignedKey(raw).value
  {
    hide *;
    if ParseLine(raw) == Skip {
      SkippedLineHasNoKey(raw);
    } else {
      AssignmentHolds(raw);
      var a, at := MatchedKeyPlace(raw);
      StandingKeyIsBefore(raw, a + at, AssignedKey(raw).value);
      HeldIsBefore(raw, ParseLine(raw).key);
    }
  }

  lemma HeldIsBefore(s: string, key: string)
    requires Holds(s, key)
    ensures KeyBefore(s) == key
  {
  }
}
