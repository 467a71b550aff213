/**
 What mlx does with the secrets it deactivates: a value that was set is kept for rollback, in a
 comment, and no line of the rendered file sets it any more.
 */
module EnvironmentSecrets {
  import opened Wrappers
  import opened Text
  import opened EnvironmentFile
  import opened EnvironmentLines
  import opened EnvironmentRender

  /** The line sets a key to something other than nothing, with or without quotes. */
  ghost predicate SetsValue(line: string) {
    exists front, rest :: Divides(line, front, rest) && Strip(rest, PySpace) !in ["", "''", "\"\""]
  }

  /** The first equals sign of the line stands between the two parts. */
  predicate Divides(line: string, front: string, rest: string) {
    line == front + "=" + rest && '=' !in front
  }

  /** The line is a managed assignment of a secret. */
  predicate SetsSecret(plan: Plan, line: string) {
    && AssignedKey(line).Some? && AssignedKey(line).value in Keys(plan.managed)
    && AssignedKey(line).value in plan.secrets
  }

  /** Two lines that follow each other. */
  ghost predicate Together(lines: seq<string>, j: nat, a: string, b: string) {
    j + 1 < |lines| && lines[j] == a && lines[j + 1] == b
  }

  lemma PriorIs(line: string, front: string, rest: string)
    requires Divides(line, front, rest)
    ensures Prior(line) == Strip(rest, PySpace)
  {
    hide Strip, PySpace;
    assert line[|front|] == '=' && forall k :: 0 <= k < |front| ==> line[k] == front[k];
    EqualsAt(line, |front|);
    assert line[|front| + 1..] == rest;
  }

  lemma DividesAt(line: string) returns (front: string, rest: string)
    requires '=' in line
    ensures Divides(line, front, rest)
  {
    var e := IndexOf(line, '=');
    front, rest := line[..e], line[e + 1..];
  }

  /** A secret is active exactly when its line sets a value. */
  lemma ActiveIs(plan: Plan, line: string)
    requires SetsSecret(plan, line)
    ensures ActiveSecret(plan, line) <==> SetsValue(line)
  {
    hide AssignedKey, Strip, PySpace, Prior, Divides;
    KeyHasEquals(line);
    var front, rest := DividesAt(line);
    PriorIs(line, front, rest);
    if f, r :| Divides(line, f, r) && Strip(r, PySpace) !in ["", "''", "\"\""] { PriorIs(line, f, r); }
  }

  lemma {:induction false} KeptTogether(plan: Plan, lines: seq<string>, k: nat, a: string, b: string) returns (j: nat)
    requires k < |lines| && Keep(plan, lines[k]) == [a, b]
    ensures Together(Kept(plan, lines), j, a, b)
  {
    hide Keep;
    var n := |lines| - 1;
    if k == n {
      j := |Kept(plan, lines[..n])|;
    } else {
      j := KeptTogether(plan, lines[..n], k, a, b);
    }
  }

  lemma {:induction false} TrimmedReaches(lines: seq<string>, j: nat)
    requires j < |lines| && Strip(lines[j], PySpace) != ""
    ensures j < |Trimmed(lines)| && Trimmed(lines)[j] == lines[j]
  {
    hide Strip;
    if Strip(lines[|lines| - 1], PySpace) == "" { TrimmedReaches(lines[..|lines| - 1], j); }
  }

  lemma HashIsNotBlank(line: string)
    requires line != "" && line[0] == '#'
    ensures Strip(line, PySpace) != ""
  {
  }

  lemma NoticeHash(plan: Plan)
    requires Valid(plan)
    ensures plan.notice != "" && plan.notice[0] == '#'
  {
  }

  lemma KeepsSecret(plan: Plan, line: string)
    requires Valid(plan) && ActiveSecret(plan, line)
    ensures Keep(plan, line) == [plan.notice, "# " + line]
  {
    CommentLine(plan.header);
    hide AssignedKey, Prior, Valid;
    assert Comment(plan.header);
  }

  /**
   A secret that was set stays in the rendered file as a comment under the notice, whatever
   else the file holds.
   */
  lemma SetSecretsAreKeptAsComments(plan: Plan, original: string, k: nat)
    requires Valid(plan) && plan.mlx && Rendered(plan, original).Some? && k < |SplitLines(original)|
    requires SetsSecret(plan, SplitLines(original)[k]) && SetsValue(SplitLines(original)[k])
    ensures exists j: nat ::
              Together(SplitLines(Rendered(plan, original).value), j, plan.notice, "# " + SplitLines(original)[k])
  {
    hide *;
    var lines := SplitLines(original);
    ActiveIs(plan, lines[k]);
    KeepsSecret(plan, lines[k]);
    var j := KeptTogether(plan, lines, k, plan.notice, "# " + lines[k]);
    RenderedLines(plan, original);
    SplitLinesUnlines(Output(plan, lines));
    NoticeHash(plan);
    CommentHash(lines[k]);
    TogetherIs(Kept(plan, lines), j, plan.notice, "# " + lines[k]);
    HashIsNotBlank(plan.notice);
    HashIsNotBlank("# " + lines[k]);
    TrimmedReaches(Kept(plan, lines), j);
    TrimmedReaches(Kept(plan, lines), j + 1);
    OutputStarts(plan, lines, j, plan.notice, "# " + lines[k]);
  }

  lemma CommentHash(line: string)
    ensures "# " + line != "" && ("# " + line)[0] == '#'
  {
  }

  lemma TogetherIs(lines: seq<string>, j: nat, a: string, b: string)
    requires Together(lines, j, a, b)
    ensures j + 1 < |lines| && lines[j] == a && lines[j + 1] == b
  {
  }

  lemma OutputStarts(plan: Plan, lines: seq<string>, j: nat, a: string, b: string)
    requires plan.mlx && j + 1 < |Trimmed(Kept(plan, lines))|
    requires Trimmed(Kept(plan, lines))[j] == a && Trimmed(Kept(plan, lines))[j + 1] == b
    ensures Together(Output(plan, lines), j, a, b)
  {
    hide Trimmed, Kept, Pairs;
  }

  // ---------------------------------------------------------------- nothing sets a secret any more

  /** Every line that rendering kept assigns no managed key. */
  lemma SettledAssignsNothing(plan: Plan, lines: seq<string>, j: nat)
    requires Settled(plan, lines) && j < |lines|
    ensures ManagedKey(plan, lines[j]).None?
  {
    hide ManagedKey, ActiveSecret;
    assert Keep(plan, lines[j]) == [lines[j]];
  }

  lemma PairOf(plan: Plan, i: nat)
    requires Valid(plan) && i < |plan.managed| && plan.managed[i].0 in plan.secrets
    ensures plan.managed[i].1 == "" && Pair(plan.managed[i]) == plan.managed[i].0 + "=''"
  {
  }

  /** The only lines of the rendered file that assign a secret clear it. */
  lemma NoSecretIsSet(plan: Plan, original: string, j: nat)
    requires Valid(plan) && plan.mlx && Rendered(plan, original).Some?
    requires j < |SplitLines(Rendered(plan, original).value)|
    requires SetsSecret(plan, SplitLines(Rendered(plan, original).value)[j])
    ensures var line := SplitLines(Rendered(plan, original).value)[j]; line == AssignedKey(line).value + "=''"
  {
    hide *;
    var lines := SplitLines(original);
    RenderedLines(plan, original);
    SplitLinesUnlines(Output(plan, lines));
    KeptSettles(plan, lines);
    BodySettles(plan, Kept(plan, lines));
    var body := Body(plan, Kept(plan, lines));
    OutputIs(plan, lines, j);
    if j < |body| {
      SettledAssignsNothing(plan, body, j);
      SecretIsManaged(plan, body[j]);
    } else if j == |body| {
      HeaderAssignsNothing(plan);
      SecretIsManaged(plan, plan.header);
    } else {
      var i := j - |body| - 1;
      PairIsManaged(plan, i);
      SecretIsManaged(plan, Pair(plan.managed[i]));
      SameSecret(plan, i);
      PairOf(plan, i);
    }
  }

  lemma SecretIsManaged(plan: Plan, line: string)
    ensures SetsSecret(plan, line) ==> ManagedKey(plan, line) == AssignedKey(line) && AssignedKey(line).Some?
  {
    hide AssignedKey;
  }

  lemma SameSecret(plan: Plan, i: nat)
    requires i < |plan.managed| && SetsSecret(plan, Pair(plan.managed[i]))
    requires ManagedKey(plan, Pair(plan.managed[i])) == Some(plan.managed[i].0)
    ensures AssignedKey(Pair(plan.managed[i])) == Some(plan.managed[i].0) && plan.managed[i].0 in plan.secrets
  {
    hide AssignedKey, Pair;
  }

  lemma HeaderAssignsNothing(plan: Plan)
    requires Valid(plan)
    ensures ManagedKey(plan, plan.header).None?
  {
    assert Comment(plan.header);
    CommentLine(plan.header);
    hide AssignedKey;
  }

  lemma OutputIs(plan: Plan, lines: seq<string>, j: nat)
    requires j < |Output(plan, lines)|
    ensures var body := Body(plan, Kept(plan, lines));
            Output(plan, lines)[j] ==
              if j < |body| then body[j] else if j == |body| then plan.header else Pair(plan.managed[j - |body| - 1])
    ensures j < |Body(plan, Kept(plan, lines))| + 1 + |plan.managed|
  {
    hide Body, Kept, Pair;
  }
}
