/**
 The streamed tool-call assembler of the MLX-VLM smoke test (deploy/smoke-mlx-vlm.py,
 `merge_streamed_tool_deltas`, `validate_streamed_tool_calls`, `streamed_turn`).
 */
module ToolStream {
  import opened Wrappers

  const MAX_TOOL_CALLS_PER_TURN := 8

  /** The JSON shapes the assembler tells apart; absent keys are absent from `fields`. */
  datatype Field = Index | IdField | TypeField | FunctionField | NameField | ArgumentsField | OtherField(name: string)
  datatype Json = JStr(s: string) | JInt(n: int) | JArr(items: seq<Json>) | JObj(fields: map<Field, Json>) | JOther

  datatype Call = Call(id: string, kind: string, name: string, arguments: string)
  const BLANK := Call("", "", "", "")

  /** The fragments of one well-formed delta; an absent fragment adds nothing. */
  datatype Delta = Delta(index: nat, id: string, kind: string, name: string, arguments: string)

  datatype StreamError =
    | NotAnArray | NotAnObject | UnexpectedFields | NoIndex | BadIndex | BadFragment | BadFunction | EmptyDelta
    | IncompleteId | BadType | IncompleteName | IncompleteArguments | BadArguments | NoTerminator

  predicate TextOrAbsent(o: map<Field, Json>, f: Field) {
    f in o ==> o[f].JStr?
  }

  function TextAt(o: map<Field, Json>, f: Field): string {
    if f in o && o[f].JStr? then o[f].s else ""
  }

  predicate FunctionOk(j: Json) {
    && j.JObj? && (forall f :: f in j.fields ==> f.NameField? || f.ArgumentsField?) && j.fields != map[]
    && TextOrAbsent(j.fields, NameField) && TextOrAbsent(j.fields, ArgumentsField)
  }

  /** What one streamed delta must look like. */
  predicate DeltaOk(j: Json) {
    && j.JObj?
    && (forall f :: f in j.fields ==> f.Index? || f.IdField? || f.TypeField? || f.FunctionField?)
    && Index in j.fields && j.fields[Index].JInt? && 0 <= j.fields[Index].n < MAX_TOOL_CALLS_PER_TURN
    && TextOrAbsent(j.fields, IdField) && TextOrAbsent(j.fields, TypeField)
    && (FunctionField in j.fields ==> FunctionOk(j.fields[FunctionField]))
    && (IdField in j.fields || TypeField in j.fields || FunctionField in j.fields)
  }

  function DeltaOf(j: Json): (d: Delta)
    requires DeltaOk(j)
    ensures d.index < MAX_TOOL_CALLS_PER_TURN
  {
    var function_ := if FunctionField in j.fields then j.fields[FunctionField].fields else map[];
    Delta(j.fields[Index].n, TextAt(j.fields, IdField), TextAt(j.fields, TypeField),
          TextAt(function_, NameField), TextAt(function_, ArgumentsField))
  }

  function Grown(c: Call, d: Delta): Call {
    Call(c.id + d.id, c.kind + d.kind, c.name + d.name, c.arguments + d.arguments)
  }

  function Padded(calls: seq<Call>, n: nat): seq<Call>
    decreases n - |calls|
  {
    if |calls| >= n then calls else Padded(calls + [BLANK], n)
  }

  /** The calls after one delta. */
  function Merged(calls: seq<Call>, d: Delta): seq<Call> {
    var padded := Padded(calls, d.index + 1);
    PaddedShape(calls, d.index + 1);
    padded[d.index := Grown(padded[d.index], d)]
  }

  lemma {:induction false} PaddedShape(calls: seq<Call>, n: nat)
    ensures |Padded(calls, n)| == if |calls| >= n then |calls| else n
    ensures forall i :: 0 <= i < |Padded(calls, n)| ==> Padded(calls, n)[i] == if i < |calls| then calls[i] else BLANK
    decreases n - |calls|
  {
    if |calls| < n { PaddedShape(calls + [BLANK], n); }
  }

  function MergedAll(calls: seq<Call>, ds: seq<Delta>): seq<Call>
    decreases |ds|
  {
    if ds == [] then calls else MergedAll(Merged(calls, ds[0]), ds[1..])
  }

  predicate DeltasOk(js: seq<Json>) {
    forall i :: 0 <= i < |js| ==> DeltaOk(js[i])
  }

  function DeltasOf(js: seq<Json>): seq<Delta>
    requires DeltasOk(js)
  {
    seq(|js|, i requires 0 <= i < |js| => DeltaOf(js[i]))
  }

  // ---------------------------------------------------------------- the assembler

  class Assembler {
    var calls: seq<Call>

    constructor ()
      ensures calls == []
    {
      calls := [];
    }

    /** One delta, with the checks and the updates in the source's order. */
    method MergeOne(j: Json) returns (r: Outcome<StreamError>)
      modifies this
      ensures r.Pass? <==> DeltaOk(j)
      ensures r.Pass? ==> calls == Merged(old(calls), DeltaOf(j))
    {
      if !j.JObj? { return Fail(NotAnObject); }
      var o := j.fields;
      if exists f :: f in o && !(f.Index? || f.IdField? || f.TypeField? || f.FunctionField?) {
        return Fail(UnexpectedFields);
      }
      if Index !in o { return Fail(NoIndex); }
      if !o[Index].JInt? || o[Index].n < 0 || o[Index].n >= MAX_TOOL_CALLS_PER_TURN { return Fail(BadIndex); }
      var index := o[Index].n;
      PaddedShape(calls, index + 1);
      while |calls| <= index
        invariant Padded(calls, index + 1) == Padded(old(calls), index + 1)
        decreases index + 1 - |calls|
      {
        calls := calls + [BLANK];
      }
      assert calls == Padded(old(calls), index + 1);
      var call := calls[index];
      assert call.id + "" == call.id && call.kind + "" == call.kind;
      assert call.name + "" == call.name && call.arguments + "" == call.arguments;
      var sawFragment := false;
      if IdField in o {
        if !o[IdField].JStr? { return Fail(BadFragment); }
        call, sawFragment := call.(id := call.id + o[IdField].s), true;
      }
      if TypeField in o {
        if !o[TypeField].JStr? { return Fail(BadFragment); }
        call, sawFragment := call.(kind := call.kind + o[TypeField].s), true;
      }
      if FunctionField in o {
        var d := o[FunctionField];
        if !d.JObj? || (exists f :: f in d.fields && !(f.NameField? || f.ArgumentsField?)) || d.fields == map[] {
          return Fail(BadFunction);
        }
        if NameField in d.fields {
          if !d.fields[NameField].JStr? { return Fail(BadFragment); }
          call := call.(name := call.name + d.fields[NameField].s);
        }
        if ArgumentsField in d.fields {
          if !d.fields[ArgumentsField].JStr? { return Fail(BadFragment); }
          call := call.(arguments := call.arguments + d.fields[ArgumentsField].s);
        }
        sawFragment := true;
      }
      if !sawFragment { return Fail(EmptyDelta); }
      calls := calls[index := call];
      return Pass;
    }

    /** `merge_streamed_tool_deltas`. */
    method Merge(deltas: Json) returns (r: Outcome<StreamError>)
      modifies this
      ensures r.Pass? <==> deltas.JArr? && DeltasOk(deltas.items)
      ensures r.Pass? ==> calls == MergedAll(old(calls), DeltasOf(deltas.items))
    {
      hide DeltaOk, DeltaOf, Merged;
      if !deltas.JArr? { return Fail(NotAnArray); }
      var js := deltas.items;
      for i := 0 to |js|
        invariant DeltasOk(js[..i]) && calls == MergedAll(old(calls), DeltasOf(js[..i]))
      {
        r := MergeOne(js[i]);
        if r.Fail? { return; }
        MergedAllSnoc(old(calls), DeltasOf(js[..i]), DeltaOf(js[i]));
        assert DeltasOf(js[..i + 1]) == DeltasOf(js[..i]) + [DeltaOf(js[i])];
      }
      assert js[..|js|] == js;
      return Pass;
    }
  }

  // ---------------------------------------------------------------- independence of framing

  /** Merging two batches in turn is merging their concatenation. */
  lemma {:induction false} MergeConcat(calls: seq<Call>, a: seq<Delta>, b: seq<Delta>)
    ensures MergedAll(calls, a + b) == MergedAll(MergedAll(calls, a), b)
    decreases |a|
  {
    if a == [] {
      assert a + b == b;
    } else {
      assert (a + b)[0] == a[0] && (a + b)[1..] == a[1..] + b;
      MergeConcat(Merged(calls, a[0]), a[1..], b);
    }
  }

  lemma MergedAllSnoc(calls: seq<Call>, ds: seq<Delta>, d: Delta)
    ensures MergedAll(calls, ds + [d]) == Merged(MergedAll(calls, ds), d)
  {
    MergeConcat(calls, ds, [d]);
    assert [d][1..] == [];
  }

  function Flatten(batches: seq<seq<Delta>>): seq<Delta> {
    if batches == [] then [] else batches[0] + Flatten(batches[1..])
  }

  function MergedBatches(calls: seq<Call>, batches: seq<seq<Delta>>): seq<Call>
    decreases |batches|
  {
    if batches == [] then calls else MergedBatches(MergedAll(calls, batches[0]), batches[1..])
  }

  /** However the deltas are framed into events, only their sequence matters. */
  lemma {:induction false} FramingDoesNotMatter(calls: seq<Call>, batches: seq<seq<Delta>>)
    ensures MergedBatches(calls, batches) == MergedAll(calls, Flatten(batches))
    decreases |batches|
  {
    if batches != [] {
      MergeConcat(calls, batches[0], Flatten(batches[1..]));
      FramingDoesNotMatter(MergedAll(calls, batches[0]), batches[1..]);
    }
  }

  // ---------------------------------------------------------------- the closed form

  /** The deltas for one index, in order. */
  function For(ds: seq<Delta>, index: nat): seq<Delta> {
    if ds == [] then [] else if ds[0].index == index then [ds[0]] + For(ds[1..], index) else For(ds[1..], index)
  }

  /** One call grown by deltas in order, whatever their indices. */
  function GrownBy(c: Call, ds: seq<Delta>): Call
    decreases |ds|
  {
    if ds == [] then c else GrownBy(Grown(c, ds[0]), ds[1..])
  }

  function Longest(n: nat, ds: seq<Delta>): nat
    decreases |ds|
  {
    if ds == [] then n else Longest(if ds[0].index + 1 > n then ds[0].index + 1 else n, ds[1..])
  }

  /**
   The assembled calls in closed form: as many as the largest index asks for, each one the
   in-order concatenation of the fragments that carry its index.
   */
  lemma {:induction false} AssembledCalls(calls: seq<Call>, ds: seq<Delta>)
    ensures |MergedAll(calls, ds)| == Longest(|calls|, ds)
    ensures forall i :: 0 <= i < |MergedAll(calls, ds)| ==>
              MergedAll(calls, ds)[i] == GrownBy(if i < |calls| then calls[i] else BLANK, For(ds, i))
    decreases |ds|
  {
    if ds != [] {
      var d, next := ds[0], Merged(calls, ds[0]);
      PaddedShape(calls, d.index + 1);
      AssembledCalls(next, ds[1..]);
      forall i | 0 <= i < |MergedAll(calls, ds)|
        ensures MergedAll(calls, ds)[i] == GrownBy(if i < |calls| then calls[i] else BLANK, For(ds, i))
      {
        assert ([d] + For(ds[1..], i))[1..] == For(ds[1..], i);
      }
    }
  }

  /** How far a stream reaches is one past its largest index, if that is past the calls it starts from. */
  lemma {:induction false} LongestIsReached(n: nat, ds: seq<Delta>)
    ensures Longest(n, ds) >= n && (Longest(n, ds) > n ==> For(ds, Longest(n, ds) - 1) != [])
    ensures forall i: nat :: For(ds, i) != [] ==> i < Longest(n, ds)
    decreases |ds|
  {
    if ds != [] { LongestIsReached(if ds[0].index + 1 > n then ds[0].index + 1 else n, ds[1..]); }
  }

  /** Two streams that agree index by index assemble to the same calls. */
  lemma InterleavingDoesNotMatter(calls: seq<Call>, a: seq<Delta>, b: seq<Delta>)
    requires forall i: nat :: For(a, i) == For(b, i)
    ensures MergedAll(calls, a) == MergedAll(calls, b)
  {
    LongestIsReached(|calls|, a);
    LongestIsReached(|calls|, b);
    AssembledCalls(calls, a);
    AssembledCalls(calls, b);
  }

  lemma {:induction false} ForConcat(a: seq<Delta>, b: seq<Delta>, i: nat)
    ensures For(a + b, i) == For(a, i) + For(b, i)
    decreases |a|
  {
    if a == [] {
      assert a + b == b;
    } else {
      assert (a + b)[0] == a[0] && (a + b)[1..] == a[1..] + b;
      ForConcat(a[1..], b, i);
    }
  }

  /** Neighbouring deltas of different calls commute, anywhere in a stream. */
  lemma NeighboursCommute(calls: seq<Call>, before: seq<Delta>, d: Delta, e: Delta, after: seq<Delta>)
    requires d.index != e.index
    ensures MergedAll(calls, before + [d, e] + after) == MergedAll(calls, before + [e, d] + after)
  {
    var a, b := before + [d, e] + after, before + [e, d] + after;
    forall i: nat ensures For(a, i) == For(b, i) {
      ForConcat(before + [d, e], after, i);
      ForConcat(before, [d, e], i);
      ForConcat(before + [e, d], after, i);
      ForConcat(before, [e, d], i);
      PairFor(d, e, i);
    }
    InterleavingDoesNotMatter(calls, a, b);
  }

  lemma PairFor(d: Delta, e: Delta, i: nat)
    requires d.index != e.index
    ensures For([d, e], i) == For([e, d], i)
  {
  }

  /** A turn never assembles more than eight calls. */
  lemma {:induction false} AtMostEightCalls(calls: seq<Call>, ds: seq<Delta>)
    requires |calls| <= MAX_TOOL_CALLS_PER_TURN && forall i :: 0 <= i < |ds| ==> ds[i].index < MAX_TOOL_CALLS_PER_TURN
    ensures |MergedAll(calls, ds)| <= MAX_TOOL_CALLS_PER_TURN
    decreases |ds|
  {
    if ds != [] {
      PaddedShape(calls, ds[0].index + 1);
      AtMostEightCalls(Merged(calls, ds[0]), ds[1..]);
    }
  }

  // ---------------------------------------------------------------- the fragments, told from the JSON

  /** Fragments joined from left to right. */
  function Joined(parts: seq<string>): string {
    if parts == [] then "" else parts[0] + Joined(parts[1..])
  }

  lemma {:induction false} JoinedConcat(a: seq<string>, b: seq<string>)
    ensures Joined(a + b) == Joined(a) + Joined(b)
  {
    if a == [] {
      assert a + b == b;
    } else {
      assert (a + b)[1..] == a[1..] + b;
      JoinedConcat(a[1..], b);
    }
  }

  /** Where a fragment stands in a delta: `id`, `type`, or `name` and `arguments` inside `function`. */
  datatype Place = AtTop(key: Field) | InFunction(key: Field)

  /** The fragment a delta has at a place, if it has one. */
  function FragmentAt(j: Json, place: Place): seq<string> {
    if !j.JObj? then []
    else if place.AtTop? then Text(j.fields, place.key)
    else if FunctionField in j.fields && j.fields[FunctionField].JObj? then
              Text(j.fields[FunctionField].fields, place.key)
    else []
  }

  function Text(o: map<Field, Json>, key: Field): seq<string> {
    if key in o && o[key].JStr? then [o[key].s] else []
  }

  /** The fragments at a place of the deltas that carry an index, in the order of the stream. */
  function Fragments(js: seq<Json>, index: nat, place: Place): seq<string> {
    if js == [] then []
    else
      var j := js[0];
      (if j.JObj? && Index in j.fields && j.fields[Index] == JInt(index) then FragmentAt(j, place) else [])
      + Fragments(js[1..], index, place)
  }

  /** The call made of the joined fragments of one index. */
  function JoinedCall(js: seq<Json>, index: nat): Call {
    Call(Joined(Fragments(js, index, AtTop(IdField))), Joined(Fragments(js, index, AtTop(TypeField))),
         Joined(Fragments(js, index, InFunction(NameField))), Joined(Fragments(js, index, InFunction(ArgumentsField))))
  }

  function Appended(c: Call, d: Call): Call {
    Call(c.id + d.id, c.kind + d.kind, c.name + d.name, c.arguments + d.arguments)
  }

  lemma OneFragment(o: map<Field, Json>, key: Field)
    ensures Joined(Text(o, key)) == TextAt(o, key)
  {
    if key in o && o[key].JStr? { assert [o[key].s][1..] == []; }
  }

  /** A delta's fragments are read from its own four places. */
  lemma DeltaFragments(j: Json)
    requires DeltaOk(j)
    ensures var d := DeltaOf(j);
            && j.fields[Index] == JInt(d.index)
            && d.id == Joined(FragmentAt(j, AtTop(IdField))) && d.kind == Joined(FragmentAt(j, AtTop(TypeField)))
            && d.name == Joined(FragmentAt(j, InFunction(NameField)))
            && d.arguments == Joined(FragmentAt(j, InFunction(ArgumentsField)))
  {
    hide Text, TextAt;
    OneFragment(j.fields, IdField);
    OneFragment(j.fields, TypeField);
    if FunctionField in j.fields {
      OneFragment(j.fields[FunctionField].fields, NameField);
      OneFragment(j.fields[FunctionField].fields, ArgumentsField);
    } else {
      NoFragment(NameField);
      NoFragment(ArgumentsField);
    }
  }

  lemma NoFragment(key: Field)
    ensures TextAt(map[], key) == "" == Joined([])
  {
  }

  lemma FirstFragments(js: seq<Json>, index: nat, place: Place)
    requires js != [] && DeltaOk(js[0])
    ensures Joined(Fragments(js, index, place)) ==
              (if DeltaOf(js[0]).index == index then Joined(FragmentAt(js[0], place)) else "")
              + Joined(Fragments(js[1..], index, place))
  {
    hide FragmentAt, Joined;
    var rest := Fragments(js[1..], index, place);
    JoinedConcat(FragmentAt(js[0], place), rest);
    JoinedConcat([], rest);
    assert [] + rest == rest;
    NoFragment(IdField);
  }

  /** The call that the deltas of one index grow is the one they make joined, behind what it was. */
  lemma {:induction false} GrownByJoined(c: Call, js: seq<Json>, index: nat)
    requires DeltasOk(js)
    ensures GrownBy(c, For(DeltasOf(js), index)) == Appended(c, JoinedCall(js, index))
    decreases |js|
  {
    hide DeltaOk, DeltaOf, FragmentAt, Fragments, Joined;
    if js == [] {
      NoFragments(index);
      NothingAppended(c);
    } else {
      assert DeltasOf(js)[0] == DeltaOf(js[0]) && DeltasOf(js)[1..] == DeltasOf(js[1..]);
      DeltaFragments(js[0]);
      FirstFragments(js, index, AtTop(IdField));
      FirstFragments(js, index, AtTop(TypeField));
      FirstFragments(js, index, InFunction(NameField));
      FirstFragments(js, index, InFunction(ArgumentsField));
      var d := DeltaOf(js[0]);
      GrownByJoined(if d.index == index then Grown(c, d) else c, js[1..], index);
      assert ([d] + For(DeltasOf(js[1..]), index))[1..] == For(DeltasOf(js[1..]), index);
      AppendedTwice(c, d, JoinedCall(js[1..], index));
    }
  }

  lemma NoFragments(index: nat)
    ensures forall place :: Fragments([], index, place) == []
    ensures Joined([]) == ""
  {
  }

  lemma NothingAppended(c: Call)
    ensures Appended(c, BLANK) == c && Appended(BLANK, c) == c
  {
  }

  lemma AppendedTwice(c: Call, d: Delta, e: Call)
    ensures Appended(Grown(c, d), e) ==
              Call(c.id + (d.id + e.id), c.kind + (d.kind + e.kind), c.name + (d.name + e.name),
                   c.arguments + (d.arguments + e.arguments))
    ensures Appended(c, Call("" + e.id, "" + e.kind, "" + e.name, "" + e.arguments)) == Appended(c, e)
  {
  }

  /**
   Every assembled call is, field by field, the fragments that the stream's deltas carry for its
   index at that field's place, joined from left to right.
   */
  lemma CallsAreJoinedFragments(js: seq<Json>, i: nat)
    requires DeltasOk(js) && i < |MergedAll([], DeltasOf(js))|
    ensures MergedAll([], DeltasOf(js))[i] == JoinedCall(js, i)
  {
    hide MergedAll, GrownBy, JoinedCall, DeltaOk;
    AssembledCalls([], DeltasOf(js));
    GrownByJoined(BLANK, js, i);
    NothingAppended(JoinedCall(js, i));
  }

  // ---------------------------------------------------------------- accepting a turn

  predicate Complete(c: Call, isObject: string -> bool) {
    c.id != "" && c.kind == "function" && c.name != "" && c.arguments != "" && isObject(c.arguments)
  }

  /** `validate_streamed_tool_calls`; `isObject` decides whether text decodes to a JSON object. */
  method ValidateCalls(calls: seq<Call>, isObject: string -> bool) returns (r: Outcome<StreamError>)
    ensures r.Pass? <==> forall i :: 0 <= i < |calls| ==> Complete(calls[i], isObject)
  {
    for i := 0 to |calls|
      invariant forall j :: 0 <= j < i ==> Complete(calls[j], isObject)
    {
      if calls[i].id == "" { return Fail(IncompleteId); }
      if calls[i].kind != "function" { return Fail(BadType); }
      if calls[i].name == "" { return Fail(IncompleteName); }
      if calls[i].arguments == "" { return Fail(IncompleteArguments); }
      if !isObject(calls[i].arguments) { return Fail(BadArguments); }
    }
    return Pass;
  }

  /** An accepted turn skipped no index: every call below the largest received fragments. */
  lemma AcceptedTurnSkipsNoIndex(ds: seq<Delta>, isObject: string -> bool, i: nat)
    requires forall k :: 0 <= k < |MergedAll([], ds)| ==> Complete(MergedAll([], ds)[k], isObject)
    requires i < |MergedAll([], ds)|
    ensures For(ds, i) != []
  {
    AssembledCalls([], ds);
  }

  /** The decoded events of a turn. */
  datatype Event = Skipped | Done | Choice(content: Option<string>, finish: Option<string>, deltas: Option<Json>)
  datatype Turn = Turn(text: string, calls: seq<Call>, finish: Option<string>)

  predicate EventOk(e: Event) {
    e.Choice? && e.deltas.Some? ==> e.deltas.value.JArr? && DeltasOk(e.deltas.value.items)
  }

  /** The number of events before the terminator, or all of them. */
  function UntilDone(es: seq<Event>): nat
    ensures UntilDone(es) <= |es|
  {
    if es == [] || es[0].Done? then 0 else 1 + UntilDone(es[1..])
  }

  function DeltasIn(es: seq<Event>): seq<Delta>
    requires forall i :: 0 <= i < |es| ==> EventOk(es[i])
  {
    if es == [] then []
    else DeltasIn(es[..|es| - 1]) + EventDeltas(es[|es| - 1])
  }

  function EventDeltas(e: Event): seq<Delta>
    requires EventOk(e)
  {
    if e.Choice? && e.deltas.Some? then DeltasOf(e.deltas.value.items) else []
  }

  function TextIn(es: seq<Event>): string {
    if es == [] then ""
    else TextIn(es[..|es| - 1]) + (var e := es[|es| - 1]; if e.Choice? && e.content.Some? then e.content.value else "")
  }

  function FinishIn(es: seq<Event>): Option<string> {
    if es == [] then None
    else var e := es[|es| - 1]; if e.Choice? && e.finish.Some? then e.finish else FinishIn(es[..|es| - 1])
  }

  ghost predicate AllOk(es: seq<Event>) {
    forall i :: 0 <= i < |es| ==> EventOk(es[i])
  }

  /** The turn accumulated from `seen`. */
  ghost predicate Accumulated(seen: seq<Event>, t: Turn) {
    AllOk(seen) && t == Turn(TextIn(seen), MergedAll([], DeltasIn(seen)), FinishIn(seen))
  }

  ghost predicate AllComplete(calls: seq<Call>, isObject: string -> bool) {
    forall k :: 0 <= k < |calls| ==> Complete(calls[k], isObject)
  }

  /** The events' texts, and the items of their delta arrays, from left to right. */
  function Texts(es: seq<Event>): seq<string> {
    if es == [] then [] else OwnText(es[0]) + Texts(es[1..])
  }

  function OwnText(e: Event): seq<string> {
    if e.Choice? && e.content.Some? then [e.content.value] else []
  }

  function Items(es: seq<Event>): seq<Json> {
    if es == [] then [] else OwnItems(es[0]) + Items(es[1..])
  }

  function OwnItems(e: Event): seq<Json> {
    if e.Choice? && e.deltas.Some? && e.deltas.value.JArr? then e.deltas.value.items else []
  }

  ghost predicate NoReason(es: seq<Event>, from: nat) {
    forall k :: from <= k < |es| ==> !(es[k].Choice? && es[k].finish.Some?)
  }

  ghost predicate LastGiven(es: seq<Event>, k: nat, reason: string) {
    k < |es| && es[k].Choice? && es[k].finish == Some(reason) && NoReason(es, k + 1)
  }

  /** The reason of the last event that gives one. */
  ghost predicate LastReason(es: seq<Event>, finish: Option<string>) {
    if finish.None? then NoReason(es, 0) else exists k: nat :: LastGiven(es, k, finish.value)
  }

  /** A turn is what its events carry: their texts joined, the fragments of their deltas joined, and the last reason. */
  ghost predicate Carries(es: seq<Event>, t: Turn) {
    && t.text == Joined(Texts(es)) && LastReason(es, t.finish)
    && forall i :: 0 <= i < |t.calls| ==> t.calls[i] == JoinedCall(Items(es), i)
  }

  lemma {:induction false} TextsSnoc(es: seq<Event>, e: Event)
    ensures Texts(es + [e]) == Texts(es) + OwnText(e)
  {
    hide OwnText;
    if es == [] {
      assert es + [e] == [e] && [e][1..] == [] && Texts([]) == [];
    } else {
      assert (es + [e])[1..] == es[1..] + [e];
      TextsSnoc(es[1..], e);
    }
  }

  lemma {:induction false} ItemsSnoc(es: seq<Event>, e: Event)
    ensures Items(es + [e]) == Items(es) + OwnItems(e)
  {
    hide OwnItems;
    if es == [] {
      assert es + [e] == [e] && [e][1..] == [] && Items([]) == [];
    } else {
      assert (es + [e])[1..] == es[1..] + [e];
      ItemsSnoc(es[1..], e);
    }
  }

  lemma {:induction false} TextIsJoined(es: seq<Event>)
    ensures TextIn(es) == Joined(Texts(es))
  {
    if es != [] {
      var n := |es| - 1;
      TextIsJoined(es[..n]);
      assert es == es[..n] + [es[n]];
      hide Texts;
      TextsSnoc(es[..n], es[n]);
      JoinedConcat(Texts(es[..n]), OwnText(es[n]));
      if OwnText(es[n]) != [] { assert OwnText(es[n])[1..] == []; }
    }
  }

  lemma {:induction false} FinishIsLast(es: seq<Event>)
    ensures LastReason(es, FinishIn(es))
  {
    if es != [] {
      var n := |es| - 1;
      if es[n].Choice? && es[n].finish.Some? {
        assert LastGiven(es, n, es[n].finish.value);
      } else {
        FinishIsLast(es[..n]);
        hide LastGiven, NoReason;
        if FinishIn(es).Some? {
          var k: nat :| LastGiven(es[..n], k, FinishIn(es).value);
          StillLast(es, k, FinishIn(es).value);
        } else {
          StillNone(es, 0);
        }
      }
    }
  }

  lemma StillNone(es: seq<Event>, from: nat)
    requires es != [] && !(es[|es| - 1].Choice? && es[|es| - 1].finish.Some?) && NoReason(es[..|es| - 1], from)
    ensures NoReason(es, from)
  {
    var front := es[..|es| - 1];
    forall k | from <= k < |es| ensures !(es[k].Choice? && es[k].finish.Some?) {
      if k < |front| { assert front[k] == es[k]; }
    }
  }

  lemma StillLast(es: seq<Event>, k: nat, reason: string)
    requires es != [] && !(es[|es| - 1].Choice? && es[|es| - 1].finish.Some?) && LastGiven(es[..|es| - 1], k, reason)
    ensures LastGiven(es, k, reason)
  {
    hide NoReason;
    assert es[..|es| - 1][k] == es[k];
    StillNone(es, k + 1);
  }

  lemma DeltasAppend(a: seq<Json>, b: seq<Json>)
    requires DeltasOk(a) && DeltasOk(b)
    ensures DeltasOk(a + b) && DeltasOf(a + b) == DeltasOf(a) + DeltasOf(b)
  {
    hide DeltaOk, DeltaOf;
  }

  lemma {:induction false} DeltasAreItems(es: seq<Event>)
    requires AllOk(es)
    ensures DeltasOk(Items(es)) && DeltasIn(es) == DeltasOf(Items(es))
  {
    hide DeltaOk, DeltaOf;
    if es != [] {
      var n := |es| - 1;
      var e := es[n];
      DeltasAreItems(es[..n]);
      assert es == es[..n] + [e] && EventOk(es[n]);
      ItemsSnoc(es[..n], e);
      DeltasAppend(Items(es[..n]), OwnItems(e));
    }
  }

  lemma AccumulatedCarries(es: seq<Event>, t: Turn)
    requires Accumulated(es, t)
    ensures Carries(es, t)
  {
    hide MergedAll, DeltasOf, DeltasOk, JoinedCall, EventOk, TextIn, FinishIn, LastReason, Texts, Items;
    TextIsJoined(es);
    FinishIsLast(es);
    DeltasAreItems(es);
    forall i | 0 <= i < |t.calls| ensures t.calls[i] == JoinedCall(Items(es), i) {
      CallsAreJoinedFragments(Items(es), i);
    }
  }

  lemma AccumulateOne(seen: seq<Event>, t: Turn, e: Event)
    requires Accumulated(seen, t) && EventOk(e)
    ensures Accumulated(seen + [e], Turn(if e.Choice? && e.content.Some? then t.text + e.content.value else t.text,
                                         MergedAll(t.calls, EventDeltas(e)),
                                         if e.Choice? && e.finish.Some? then e.finish else t.finish))
  {
    var es := seen + [e];
    assert es[..|es| - 1] == seen && es[|es| - 1] == e;
    MergeConcat([], DeltasIn(seen), EventDeltas(e));
    assert t.text + "" == t.text;
  }

  lemma NothingYet()
    ensures Accumulated([], Turn("", [], None))
  {
  }

  /** The body of the loop over decoded events. */
  method Absorb(assembler: Assembler, e: Event, text: string, finish: Option<string>, ghost seen: seq<Event>)
    returns (failed: Option<StreamError>, newText: string, newFinish: Option<string>)
    requires Accumulated(seen, Turn(text, assembler.calls, finish)) && !e.Done?
    modifies assembler
    ensures failed.None? <==> EventOk(e)
    ensures failed.None? ==> Accumulated(seen + [e], Turn(newText, assembler.calls, newFinish))
  {
    newText, newFinish := text, finish;
    if EventOk(e) { AccumulateOne(seen, Turn(text, assembler.calls, finish), e); }
    if e.Skipped? { return None, text, finish; }
    if e.content.Some? { newText := text + e.content.value; }
    if e.finish.Some? { newFinish := e.finish; }
    if e.deltas.Some? {
      var merged := assembler.Merge(e.deltas.value);
      if merged.Fail? { return Some(merged.error), newText, newFinish; }
    }
    return None, newText, newFinish;
  }

  /** The accumulation loop of `streamed_turn` and the validation after it. */
  method StreamedTurn(es: seq<Event>, isObject: string -> bool) returns (r: Result<Turn, StreamError>)
    ensures r.Success? <==> var n := UntilDone(es);
              n < |es| && AllOk(es[..n]) && AllComplete(MergedAll([], DeltasIn(es[..n])), isObject)
    ensures r.Success? ==> Accumulated(es[..UntilDone(es)], r.value) && Carries(es[..UntilDone(es)], r.value)
  {
    hide Carries, EventOk, Complete, TextIn, FinishIn, DeltasIn, MergedAll;
    var text, finish := "", None;
    var assembler := new Assembler();
    var i := 0;
    UntilDoneIsFirst(es);
    NothingYet();
    while i < |es| && !es[i].Done?
      invariant i <= UntilDone(es)
      invariant Accumulated(es[..i], Turn(text, assembler.calls, finish))
    {
      var failed;
      failed, text, finish := Absorb(assembler, es[i], text, finish, es[..i]);
      assert es[..i] + [es[i]] == es[..i + 1];
      if failed.Some? {
        assert !AllOk(es[..UntilDone(es)]) by { assert es[..UntilDone(es)][i] == es[i]; }
        return Failure(failed.value);
      }
      i := i + 1;
    }
    if i == |es| { return Failure(NoTerminator); }
    var valid := ValidateCalls(assembler.calls, isObject);
    if valid.Fail? { return Failure(valid.error); }
    AccumulatedCarries(es[..i], Turn(text, assembler.calls, finish));
    return Success(Turn(text, assembler.calls, finish));
  }

  lemma {:induction false} UntilDoneIsFirst(es: seq<Event>)
    ensures forall j :: 0 <= j < UntilDone(es) ==> !es[j].Done?
    ensures UntilDone(es) < |es| ==> es[UntilDone(es)].Done?
  {
    if es != [] && !es[0].Done? { UntilDoneIsFirst(es[1..]); }
  }
}
