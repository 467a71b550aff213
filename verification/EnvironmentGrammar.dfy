/**
 The lines of an environment file as they are written: which lines the parser takes for an
 assignment, and of what, told without the parser's own functions.
 */
module EnvironmentGrammar {
  import opened Wrappers
  import opened Text
  import opened EnvironmentFile
  import opened EnvironmentKeys
  import opened EnvironmentPieces
  import opened EnvironmentRender

  ghost predicate Spaces(s: string) {
    forall k :: 0 <= k < |s| ==> RustSpace(s[k])
  }

  /** Nothing, or `export` and whitespace. */
  ghost predicate ExportPart(s: string) {
    s == "" || ("export" <= s && |s| > 6 && Spaces(s[6..]))
  }

  /** Whitespace, possibly an export, the key, an equals sign, and the text of the value. */
  ghost predicate Written(raw: string, pre: string, export_: string, key: string, text: string) {
    raw == pre + export_ + key + "=" + text && Spaces(pre) && ExportPart(export_) && IsKey(key)
  }

  /** The value between two equal quotes, whatever it is, with whitespace around them. */
  ghost predicate InQuotes(text: string, b: string, q: char, v: string, c: string) {
    text == b + [q] + v + [q] + c && (q == '\"' || q == '\'') && Spaces(b) && Spaces(c)
  }

  /** The value without the whitespace around it, not beginning with a quote. */
  ghost predicate Bare(text: string, b: string, v: string, c: string) {
    && text == b + v + c && Spaces(b) && Spaces(c)
    && (v != "" ==> !RustSpace(v[0]) && !RustSpace(v[|v| - 1]) && v[0] != '\"' && v[0] != '\'')
  }

  ghost predicate Means(text: string, v: string) {
    (exists b, q, c :: InQuotes(text, b, q, v, c)) || (exists b, c :: Bare(text, b, v, c))
  }

  /** The line assigns the value to the key. */
  ghost predicate Assigns(raw: string, key: string, v: string) {
    exists pre, export_, text :: Written(raw, pre, export_, key, text) && Means(text, v)
  }

  /** Whitespace, then nothing more or a hash. */
  ghost predicate BlankOrComment(raw: string) {
    Spaces(raw) || exists pre, rest :: raw == pre + "#" + rest && Spaces(pre)
  }

  // ---------------------------------------------------------------- values

  lemma AroundStrip(b: string, v: string, c: string)
    requires Spaces(b) && Spaces(c) && (v != "" ==> !RustSpace(v[0]) && !RustSpace(v[|v| - 1]))
    ensures Strip(b + v + c, RustSpace) == v
  {
    hide RustSpace, Strip;
    TrailingSpace(b + v, c);
    LeadingSpace(b, v);
    if v == "" { SpaceStrips(v, RustSpace); } else { StripIs(v, 0, |v|, RustSpace); }
  }

  lemma StripAround(s: string) returns (b: string, c: string)
    ensures s == b + Strip(s, RustSpace) + c && Spaces(b) && Spaces(c)
  {
    hide RustSpace, Strip;
    if Strip(s, RustSpace) == "" {
      NothingIsSpace(s);
      b, c := s, "";
      assert s == b + "" + c;
    } else {
      var i, j := StripSpan(s, RustSpace);
      b, c := s[..i], s[j..];
      assert s == s[..i] + s[i..j] + s[j..];
    }
  }

  lemma QuoteIsNoSpace(q: char)
    requires q == '\"' || q == '\''
    ensures !RustSpace(q)
  {
  }

  lemma UnquoteOfStripped(text: string, t: string)
    requires Strip(text, RustSpace) == t
    ensures Unquote(text) == Inner(t)
  {
    hide Strip, RustSpace;
  }

  lemma QuotedMeans(text: string, b: string, q: char, v: string, c: string)
    requires InQuotes(text, b, q, v, c)
    ensures Unquote(text) == Some(v)
  {
    hide Strip, RustSpace, Unquote;
    QuoteIsNoSpace(q);
    var t := [q] + v + [q];
    assert text == b + t + c;
    AroundStrip(b, t, c);
    UnquoteOfStripped(text, t);
    assert t[1..|t| - 1] == v;
  }

  lemma BareMeans(text: string, b: string, v: string, c: string)
    requires Bare(text, b, v, c)
    ensures Unquote(text) == Some(v)
  {
    hide Strip, RustSpace, Unquote;
    AroundStrip(b, v, c);
    UnquoteOfStripped(text, v);
  }

  lemma InnerMeans(text: string, b: string, t: string, c: string, v: string)
    requires text == b + t + c && Spaces(b) && Spaces(c) && Inner(t) == Some(v)
    requires t != "" ==> !RustSpace(t[0]) && !RustSpace(t[|t| - 1])
    ensures Means(text, v)
  {
    hide RustSpace, Spaces;
    if t != "" && QuoteMark(t[0]) {
      assert t == [t[0]] + v + [t[0]];
      Reassociate(b, t[0], v, c);
      assert InQuotes(text, b, t[0], v, c);
    } else {
      assert Bare(text, b, v, c);
    }
  }

  lemma Reassociate(b: string, q: char, v: string, c: string)
    ensures b + ([q] + v + [q]) + c == b + [q] + v + [q] + c
  {
  }

  /** The value of a text is what stands in its quotes, or without quotes the text itself. */
  lemma ValueMeans(text: string, v: string)
    ensures Unquote(text) == Some(v) <==> Means(text, v)
  {
    hide Strip, RustSpace, Unquote, Spaces, Inner, InQuotes, Bare;
    if Means(text, v) {
      if b, q, c :| InQuotes(text, b, q, v, c) {
        QuotedMeans(text, b, q, v, c);
      } else {
        var b, c :| Bare(text, b, v, c);
        BareMeans(text, b, v, c);
      }
    }
    if Unquote(text) == Some(v) {
      var b, c := StripAround(text);
      UnquoteOfStripped(text, Strip(text, RustSpace));
      hide Means;
      InnerMeans(text, b, Strip(text, RustSpace), c, v);
    }
  }

  // ---------------------------------------------------------------- lines

  lemma KeyParts(key: string)
    requires IsKey(key)
    ensures key != "" && '=' !in key && !RustSpace(key[0]) && key[0] != '#'
            && forall k :: 0 <= k < |key| ==> KeyChar(key[k])
  {
    forall k | 0 <= k < |key| ensures key[k] != '=' { KeyCharIsNoSpace(key[k]); }
  }

  lemma ExportStart(export_: string)
    requires ExportPart(export_) && export_ != ""
    ensures |export_| > 6 && export_[0] == 'e' && RustSpace(export_[6]) && '=' !in export_[..6]
  {
    assert export_[6..][0] == export_[6] && export_[..6] == "export" && export_[0] == "export"[0];
  }

  /** The stripped line of a written assignment: its export, key and equals sign, and its text without the end. */
  lemma StripsTo(raw: string, pre: string, export_: string, key: string, text: string) returns (t: string, c: string)
    requires Written(raw, pre, export_, key, text)
    ensures text == t + c && Spaces(c) && Strip(raw, RustSpace) == export_ + key + "=" + t
  {
    hide RustSpace, Strip, IsKey, ExportPart;
    var d := export_ + key + "=" + text;
    assert raw == pre + d;
    LeadingSpace(pre, d);
    FrontIsNoSpace(export_, key, text);
    var n := |export_ + key|;
    EqualsIsNoSpace();
    NonSpaceStays(d, n);
    var a, b := StripSpan(d, RustSpace);
    assert d[n] == '=';
    t, c := text[..b - n - 1], text[b - n - 1..];
    assert forall k :: 0 <= k < |c| ==> c[k] == d[b + k];
    assert d[..b] == export_ + key + "=" + t;
  }

  lemma EqualsIsNoSpace()
    ensures !RustSpace('=')
  {
  }

  lemma FrontIsNoSpace(export_: string, key: string, text: string)
    requires ExportPart(export_) && IsKey(key)
    ensures !RustSpace((export_ + key + "=" + text)[0])
  {
    KeyParts(key);
    if export_ != "" { ExportStart(export_); }
    hide IsKey, ExportPart, KeyChar;
    var d := export_ + key + "=" + text;
    assert d[0] == if export_ != "" then export_[0] else key[0];
  }

  lemma AfterTheExport(export_: string, key: string, t: string)
    requires ExportPart(export_) && IsKey(key)
    ensures AfterExport(export_ + key + "=" + t) == key + "=" + t
  {
    hide RustSpace, TrimLeft, IsKey, KeyChar;
    KeyParts(key);
    var line, body := export_ + key + "=" + t, key + "=" + t;
    assert body[0] == key[0];
    if export_ == "" {
      assert line == body;
      KeyFirstIsNoExport(line, |key|, key);
    } else {
      ExportStart(export_);
      assert line == export_ + body;
      SkipExport(export_, body);
    }
  }

  lemma SkipExport(export_: string, body: string)
    requires ExportPart(export_) && export_ != "" && body != "" && !RustSpace(body[0])
    ensures AfterExport(export_ + body) == body
  {
    hide RustSpace, TrimLeft;
    var line := export_ + body;
    ExportStart(export_);
    assert line[..6] == export_[..6] && line[6] == export_[6];
    assert line[6..] == export_[6..] + body;
    assert forall k :: 0 <= k < |export_[6..]| ==> line[6..][k] == export_[6..][k];
    TrimLeftIs(line[6..], RustSpace, |export_| - 6);
  }

  lemma KeyFirstIsNoExport(line: string, n: nat, key: string)
    requires n < |line| && line[n] == '=' && line[..n] == key && forall k :: 0 <= k < |key| ==> KeyChar(key[k])
    ensures !Exported(line)
  {
    forall k | 0 <= k < n ensures KeyChar(line[k]) { assert line[k] == key[k]; }
    hide KeyChar, RustSpace;
    PairIsNotExported(line, n);
  }

  lemma BodyReads(key: string, t: string)
    requires IsKey(key)
    ensures ParseBody(key + "=" + t) == if Unquote(t).Some? then Assign(key, Unquote(t).value) else Bad
  {
    hide Unquote, IsKey, KeyChar;
    KeyParts(key);
    var body := key + "=" + t;
    forall k | 0 <= k < |key| ensures body[k] != '=' { assert body[k] == key[k]; }
    EqualsAt(body, |key|);
    assert body[..|key|] == key && body[|key| + 1..] == t;
  }

  lemma EndIgnored(t: string, c: string)
    requires Spaces(c)
    ensures Unquote(t + c) == Unquote(t)
  {
    hide Strip, RustSpace, Unquote;
    TrailingSpace(t, c);
    UnquoteOfStripped(t + c, Strip(t, RustSpace));
    UnquoteOfStripped(t, Strip(t, RustSpace));
  }

  lemma WrittenReads(raw: string, pre: string, export_: string, key: string, text: string)
    requires Written(raw, pre, export_, key, text)
    ensures ParseLine(raw) == if Unquote(text).Some? then Assign(key, Unquote(text).value) else Bad
  {
    hide *;
    WrittenParts(raw, pre, export_, key, text);
    var t, c := StripsTo(raw, pre, export_, key, text);
    AfterTheExport(export_, key, t);
    BodyReads(key, t);
    EndIgnored(t, c);
    NoHashFirst(export_, key, t);
    BodyOf(raw);
  }

  lemma WrittenParts(raw: string, pre: string, export_: string, key: string, text: string)
    requires Written(raw, pre, export_, key, text)
    ensures ExportPart(export_) && IsKey(key)
  {
  }

  lemma NoHashFirst(export_: string, key: string, t: string)
    requires ExportPart(export_) && IsKey(key)
    ensures var d := export_ + key + "=" + t; d != "" && d[0] != '#'
  {
    KeyParts(key);
    if export_ != "" { ExportStart(export_); }
    hide IsKey, ExportPart, KeyChar;
    var d := export_ + key + "=" + t;
    assert d[0] == if export_ != "" then export_[0] else key[0];
  }

  /** Every accepted line is written so. */
  lemma AcceptedIsWritten(raw: string) returns (pre: string, export_: string, text: string)
    requires ParseLine(raw).Assign?
    ensures Written(raw, pre, export_, ParseLine(raw).key, text)
  {
    hide *;
    var line := Strip(raw, RustSpace);
    AssignsBody(raw);
    var b, c := StripAround(raw);
    BodyIsATail(line);
    var from, eq: nat := |line| - |AfterExport(line)|, IndexOf(AfterExport(line), '=');
    Anatomy(line, from, eq);
    ExportOf(line);
    pre, export_, text := b, line[..from], line[from + eq + 1..] + c;
    CutAssignment(raw, b, line, c, from, eq);
    WrittenIf(raw, pre, export_, line[from..from + eq], text);
  }

  lemma AssignsBody(raw: string)
    requires ParseLine(raw).Assign?
    ensures ParseLine(raw) == ParseBody(AfterExport(Strip(raw, RustSpace)))
  {
  }

  lemma WrittenIf(raw: string, pre: string, export_: string, key: string, text: string)
    requires raw == pre + export_ + key + "=" + text && Spaces(pre) && ExportPart(export_) && IsKey(key)
    ensures Written(raw, pre, export_, key, text)
  {
  }

  lemma CutAssignment(raw: string, b: string, line: string, c: string, from: nat, eq: nat)
    requires raw == b + line + c && from + eq < |line| && line[from + eq] == '='
    ensures raw == b + line[..from] + line[from..from + eq] + "=" + (line[from + eq + 1..] + c)
  {
    var x, y, z := line[..from], line[from..from + eq], line[from + eq + 1..];
    assert line == x + y + "=" + z;
  }

  lemma ExportOf(line: string)
    ensures |AfterExport(line)| <= |line| && ExportPart(line[..|line| - |AfterExport(line)|])
  {
    hide RustSpace;
    BodyIsATail(line);
    var n := |line| - |AfterExport(line)|;
    var e := line[..n];
    if Exported(line) {
      assert e[..6] == line[..6] == "export";
      forall k | 0 <= k < |e[6..]| ensures RustSpace(e[6..][k]) { assert e[6..][k] == line[6..][k]; }
    } else {
      assert e == "";
    }
  }

  /**
   A line is read as an assignment of a value to a key exactly when it is written so: after
   whitespace and possibly an export the key, an equals sign, and the value, either between two
   equal quotes or bare, with whitespace around it.
   */
  lemma AssignmentsExactly(raw: string, key: string, v: string)
    ensures ParseLine(raw) == Assign(key, v) <==> Assigns(raw, key, v)
  {
    hide *;
    if ParseLine(raw) == Assign(key, v) {
      var pre, export_, text := AcceptedIsWritten(raw);
      WrittenReads(raw, pre, export_, key, text);
      ValueMeans(text, v);
      ReadAsAssigns(raw, pre, export_, key, text, v);
    }
    if Assigns(raw, key, v) {
      var pre, export_, text := AssignsWritten(raw, key, v);
      WrittenReads(raw, pre, export_, key, text);
      ValueMeans(text, v);
    }
  }

  lemma ReadAsAssigns(raw: string, pre: string, export_: string, key: string, text: string, v: string)
    requires Written(raw, pre, export_, key, text) && Means(text, v)
    ensures Assigns(raw, key, v)
  {
  }

  lemma AssignsWritten(raw: string, key: string, v: string) returns (pre: string, export_: string, text: string)
    requires Assigns(raw, key, v)
    ensures Written(raw, pre, export_, key, text) && Means(text, v)
  {
    hide Written, Means;
    pre, export_, text :| Written(raw, pre, export_, key, text) && Means(text, v);
  }

  /** A line is skipped exactly when it is blank or a comment. */
  lemma SkipsExactly(raw: string)
    ensures ParseLine(raw) == Skip <==> BlankOrComment(raw)
  {
    SkipIs(raw);
    hide Strip, RustSpace, ParseLine;
    var b, c := StripAround(raw);
    var t := Strip(raw, RustSpace);
    if Insignificant(raw) && t != "" {
      assert t == "#" + t[1..];
      assert raw == b + "#" + (t[1..] + c);
    }
    if Spaces(raw) { SpaceStrips(raw, RustSpace); }
    if pre, rest :| raw == pre + "#" + rest && Spaces(pre) {
      assert raw == pre + ("#" + rest);
      LeadingSpace(pre, "#" + rest);
      HashStrips(rest);
    }
  }

  lemma HashStrips(rest: string)
    ensures Strip("#" + rest, RustSpace) != "" && Strip("#" + rest, RustSpace)[0] == '#'
  {
    var s := "#" + rest;
    assert !RustSpace(s[0]);
    hide RustSpace, Strip;
    NonSpaceStays(s, 0);
    var a, b := StripSpan(s, RustSpace);
  }

  /** So a line is refused exactly when it is neither. */
  lemma RefusesExactly(raw: string)
    ensures ParseLine(raw) == Bad <==> !BlankOrComment(raw) && forall key, v :: !Assigns(raw, key, v)
  {
    hide *;
    SkipsExactly(raw);
    forall key, v ensures ParseLine(raw) == Assign(key, v) <==> Assigns(raw, key, v) {
      AssignmentsExactly(raw, key, v);
    }
    if ParseLine(raw).Assign? { AssignmentsExactly(raw, ParseLine(raw).key, ParseLine(raw).value); }
  }

  /** Quotes around a value are removed, whichever they are and whatever stands between them. */
  lemma QuotesAreRemoved(key: string, q: char, v: string)
    requires IsKey(key) && (q == '\"' || q == '\'')
    ensures ParseLine(key + "=" + [q] + v + [q]) == Assign(key, v)
  {
    hide RustSpace, IsKey, ParseLine;
    var text := [q] + v + [q];
    var raw := key + "=" + [q] + v + [q];
    assert text == "" + [q] + v + [q] + "";
    assert InQuotes(text, "", q, v, "");
    assert raw == "" + "" + key + "=" + text;
    assert Written(raw, "", "", key, text);
    AssignmentsExactly(raw, key, v);
  }

  // ---------------------------------------------------------------- files

  /** No line is refused, and no two assign the same key. */
  ghost predicate Sound(lines: seq<string>) {
    && (forall i :: 0 <= i < |lines| ==> ParseLine(lines[i]) != Bad)
    && forall i, j :: 0 <= i < j < |lines| ==> !SameKey(lines[i], lines[j])
  }

  predicate SameKey(a: string, b: string) {
    ParseLine(a).Assign? && ParseLine(b).Assign? && ParseLine(a).key == ParseLine(b).key
  }

  /** Some line assigns the value to the key. */
  ghost predicate Assigned(lines: seq<string>, key: string, v: string) {
    exists i :: 0 <= i < |lines| && ParseLine(lines[i]) == Assign(key, v)
  }

  lemma AssignedSnoc(lines: seq<string>, n: nat, key: string, v: string)
    requires n + 1 == |lines|
    ensures Assigned(lines, key, v) <==> Assigned(lines[..n], key, v) || ParseLine(lines[n]) == Assign(key, v)
  {
    hide ParseLine;
    if Assigned(lines[..n], key, v) {
      var i :| 0 <= i < n && ParseLine(lines[..n][i]) == Assign(key, v);
      assert ParseLine(lines[i]) == Assign(key, v);
    }
    if Assigned(lines, key, v) && ParseLine(lines[n]) != Assign(key, v) {
      var i :| 0 <= i < |lines| && ParseLine(lines[i]) == Assign(key, v);
      assert ParseLine(lines[..n][i]) == Assign(key, v);
    }
  }

  lemma SoundSnoc(lines: seq<string>, n: nat)
    requires n + 1 == |lines|
    ensures Sound(lines) <==> Sound(lines[..n]) && ParseLine(lines[n]) != Bad
                              && forall i :: 0 <= i < n ==> !SameKey(lines[i], lines[n])
  {
    hide ParseLine, SameKey;
    assert forall i :: 0 <= i < n ==> lines[..n][i] == lines[i];
  }

  lemma NewKey(lines: seq<string>, n: nat, k: string)
    requires n < |lines| && ParseLine(lines[n]).Assign? && ParseLine(lines[n]).key == k
    ensures (forall i :: 0 <= i < n ==> !SameKey(lines[i], lines[n])) <==> forall v :: !Assigned(lines[..n], k, v)
  {
    hide ParseLine;
    if i :| 0 <= i < n && SameKey(lines[i], lines[n]) {
      assert ParseLine(lines[..n][i]) == Assign(k, ParseLine(lines[i]).value);
      assert Assigned(lines[..n], k, ParseLine(lines[i]).value);
    }
    if v :| Assigned(lines[..n], k, v) {
      var i :| 0 <= i < n && ParseLine(lines[..n][i]) == Assign(k, v);
      assert SameKey(lines[i], lines[n]);
    }
  }

  ghost predicate Sets(m: Values, key: string, v: string) {
    key in m && m[key] == v
  }

  lemma {:induction false} FileReads(lines: seq<string>)
    ensures Parsed(lines).Some? <==> Sound(lines)
    ensures Parsed(lines).Some? ==> forall k, v :: Sets(Parsed(lines).value, k, v) <==> Assigned(lines, k, v)
  {
    hide ParseLine, SameKey;
    if lines != [] {
      var n := |lines| - 1;
      FileReads(lines[..n]);
      SoundSnoc(lines, n);
      var last := ParseLine(lines[n]);
      forall k, v ensures Assigned(lines, k, v) <==> Assigned(lines[..n], k, v) || last == Assign(k, v) {
        AssignedSnoc(lines, n, k, v);
      }
      if last.Assign? {
        NewKey(lines, n, last.key);
        hide Sound, Assigned;
        if Parsed(lines[..n]).Some? { Extends(lines[..n], Parsed(lines[..n]).value, last.key, last.value); }
      } else {
        NoKeyIsNew(lines, n);
      }
    }
  }

  lemma NoKeyIsNew(lines: seq<string>, n: nat)
    requires n < |lines| && !ParseLine(lines[n]).Assign?
    ensures forall i :: 0 <= i < n ==> !SameKey(lines[i], lines[n])
  {
    hide ParseLine;
  }

  lemma Extends(lines: seq<string>, m: Values, key: string, v: string)
    requires forall k, u :: Sets(m, k, u) <==> Assigned(lines, k, u)
    ensures key in m <==> exists u :: Assigned(lines, key, u)
    ensures key !in m ==> forall k, u :: Sets(m[key := v], k, u) <==> Sets(m, k, u) || (k == key && u == v)
  {
    hide Assigned;
    if key in m {
      assert Sets(m, key, m[key]);
    } else {
      forall k, u ensures Sets(m[key := v], k, u) <==> Sets(m, k, u) || (k == key && u == v) {
        OneMoreSets(m, key, v, k, u);
      }
    }
  }

  lemma OneMoreSets(m: Values, key: string, v: string, k: string, u: string)
    requires key !in m
    ensures Sets(m[key := v], k, u) <==> Sets(m, k, u) || (k == key && u == v)
  {
  }

  /**
   The parser reads a file as settings exactly when no line of it is refused, no two lines assign
   the same key, and the settings are just what its lines assign.
   */
  lemma FilesReadExactly(lines: seq<string>, m: Values)
    ensures Parsed(lines) == Some(m) <==>
              Sound(lines) && forall k, v :: Sets(m, k, v) <==> Assigned(lines, k, v)
  {
    hide Parsed, Sound, Assigned;
    FileReads(lines);
    if Parsed(lines).Some? && forall k, v :: Sets(m, k, v) <==> Assigned(lines, k, v) {
      var p := Parsed(lines).value;
      forall k ensures k in p <==> k in m {
        if k in p { assert Sets(p, k, p[k]); }
        if k in m { assert Sets(m, k, m[k]) && Sets(p, k, m[k]); }
      }
      forall k | k in p ensures p[k] == m[k] { assert Sets(p, k, p[k]); }
      assert p == m;
    }
  }
}
