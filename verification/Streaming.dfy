/** Streaming chat output: the deltas between successive messages, what a client makes of them, and
    the ids of tool calls. */
module Streaming {
  import opened Wrappers

  datatype Error = InvalidDiff | FewerToolCalls | ToolCallMismatch

  type Result<+T> = Wrappers.Result<T, Error>

  datatype Call = Call(name: string, arguments: string, id: string)

  datatype Message = Message(content: string, reasoning: string, calls: seq<Call>) {
    predicate IsEmpty() {
      content == "" && reasoning == "" && calls == []
    }
  }

  datatype Index = NoIndex | At(index: nat)

  datatype Diff = Diff(reasoningDelta: string, contentDelta: string, call: Index, callDelta: Call)

  const NOTHING := Call("", "", "")

  // ---- deltas ----

  function StringDiff(last: string, current: string): (r: Result<string>)
    ensures r.Err? <==> !(last <= current) && !(current <= last)
    ensures r.Ok? ==> last + r.value == if last <= current then current else last
  {
    if last == "" then Ok(current)
    else if !(last <= current) then
      if current <= last then Ok("") else Err(InvalidDiff)
    else Ok(current[|last|..])
  }

  function Optional(emit: bool, d: Diff): seq<Diff> {
    if emit then [d] else []
  }

  /** The new reasoning, less what was already streamed as content and is now taken back. */
  function ReasoningDelta(prv: Message, new_: Message): Result<string> {
    if prv.reasoning == new_.reasoning then Ok("")
    else
      var delta :- StringDiff(prv.reasoning, new_.reasoning);
      Ok(if prv.content != "" && prv.content <= delta && new_.content <= prv.content
         then delta[|prv.content|..] else delta)
  }

  function ContentDelta(prv: Message, new_: Message): Result<string> {
    if prv.content == new_.content then Ok("") else StringDiff(prv.content, new_.content)
  }

  /** The delta of the last call known before. */
  function KnownCallDelta(idx: nat, pref: Call, newf: Call): Result<seq<Diff>> {
    if pref.name != newf.name && pref.name != "" && newf.name != "" && !(pref.name <= newf.name) then
      Err(ToolCallMismatch)
    else
      var arguments :- StringDiff(pref.arguments, newf.arguments);
      var changed := pref.id != newf.id || pref.name != newf.name;
      Ok(Optional(arguments != "" || changed,
                  Diff("", "", At(idx), if changed then Call(newf.name, arguments, newf.id)
                                        else Call("", arguments, ""))))
  }

  function NewCallDeltas(calls: seq<Call>, from: nat): (ds: seq<Diff>)
    requires from <= |calls|
    ensures |ds| == |calls| - from
    decreases |calls| - from
  {
    if from == |calls| then []
    else [Diff("", "", At(from), calls[from])] + NewCallDeltas(calls, from + 1)
  }

  function CallDeltas(prv: seq<Call>, new_: seq<Call>): Result<seq<Diff>> {
    if |new_| < |prv| then Err(FewerToolCalls)
    else if prv == [] then Ok(NewCallDeltas(new_, 0))
    else
      var idx := |prv| - 1;
      var known :- KnownCallDelta(idx, prv[idx], new_[idx]);
      Ok(known + NewCallDeltas(new_, |prv|))
  }

  function TextDeltas(prv: Message, new_: Message): Result<seq<Diff>> {
    var reasoning :- ReasoningDelta(prv, new_);
    var content :- ContentDelta(prv, new_);
    Ok(Optional(reasoning != "", Diff(reasoning, "", NoIndex, NOTHING)) +
       Optional(content != "", Diff("", content, NoIndex, NOTHING)))
  }

  function Diffs(prv: Message, new_: Message): Result<seq<Diff>> {
    var texts :- TextDeltas(prv, new_);
    var calls :- CallDeltas(prv.calls, new_.calls);
    Ok(texts + calls)
  }

  method ComputeDiffs(prv: Message, new_: Message) returns (r: Result<seq<Diff>>)
    ensures r == Diffs(prv, new_)
  {
    hide StringDiff, KnownCallDelta, TextDeltas;
    var diffs :- TextDiffs(prv, new_);
    if |new_.calls| < |prv.calls| {
      return Err(FewerToolCalls);
    }
    ghost var texts := diffs;
    ghost var calls: seq<Diff> := [];
    if prv.calls != [] {
      var idx := |prv.calls| - 1;
      var known :- KnownCallDiff(idx, prv.calls[idx], new_.calls[idx]);
      diffs := diffs + known;
      calls := known;
    }
    assert [] + NewCallDeltas(new_.calls, |prv.calls|) == NewCallDeltas(new_.calls, |prv.calls|);
    for idx := |prv.calls| to |new_.calls|
      invariant diffs == texts + calls
      invariant CallDeltas(prv.calls, new_.calls) == Ok(calls + NewCallDeltas(new_.calls, idx))
    {
      var delta := Diff("", "", At(idx), new_.calls[idx]);
      Regroup(texts, calls, [delta], NewCallDeltas(new_.calls, idx + 1));
      diffs := diffs + [delta];
      calls := calls + [delta];
    }
    assert calls + [] == calls;
    r := Ok(diffs);
  }

  lemma Regroup<T>(a: seq<T>, b: seq<T>, c: seq<T>, d: seq<T>)
    ensures a + b + c == a + (b + c) && b + (c + d) == b + c + d
  {
  }

  method TextDiffs(prv: Message, new_: Message) returns (r: Result<seq<Diff>>)
    ensures r == TextDeltas(prv, new_)
  {
    hide StringDiff;
    var diffs: seq<Diff> := [];
    if prv.reasoning != new_.reasoning {
      var reasoningDelta :- StringDiff(prv.reasoning, new_.reasoning);
      if prv.content != "" && prv.content <= reasoningDelta && new_.content <= prv.content {
        reasoningDelta := reasoningDelta[|prv.content|..];
      }
      if reasoningDelta != "" {
        diffs := diffs + [Diff(reasoningDelta, "", NoIndex, NOTHING)];
      }
    }
    ghost var reasoning := ReasoningDelta(prv, new_).value;
    ghost var first := Optional(reasoning != "", Diff(reasoning, "", NoIndex, NOTHING));
    assert diffs == first && first + [] == first;
    if prv.content != new_.content {
      var contentDelta :- StringDiff(prv.content, new_.content);
      if contentDelta != "" {
        diffs := diffs + [Diff("", contentDelta, NoIndex, NOTHING)];
      }
    }
    r := Ok(diffs);
  }

  method KnownCallDiff(idx: nat, pref: Call, newf: Call) returns (r: Result<seq<Diff>>)
    ensures r == KnownCallDelta(idx, pref, newf)
  {
    if pref.name != newf.name && pref.name != "" && newf.name != "" {
      var isPrefix := pref.name <= newf.name;
      if !isPrefix {
        return Err(ToolCallMismatch);
      }
    }
    var argsDiff :- StringDiff(pref.arguments, newf.arguments);
    var diffs := [];
    if argsDiff != "" || pref.id != newf.id || pref.name != newf.name {
      var delta := NOTHING;
      if pref.id != newf.id || pref.name != newf.name {
        delta := delta.(id := newf.id, name := newf.name);
      }
      delta := delta.(arguments := argsDiff);
      diffs := [Diff("", "", At(idx), delta)];
    }
    r := Ok(diffs);
  }

  // ---- what a client makes of the deltas ----

  function Grown(calls: seq<Call>, size: nat): (r: seq<Call>)
    ensures |r| == if |calls| < size then size else |calls|
    ensures calls <= r
    decreases size - |calls|
  {
    if |calls| >= size then calls else Grown(calls + [NOTHING], size)
  }

  function ApplyToCall(c: Call, d: Call): Call {
    Call(if d.name != "" then d.name else c.name, c.arguments + d.arguments,
         if d.id != "" then d.id else c.id)
  }

  /** A client appends the texts, and fills in the call the delta names. */
  function Apply(m: Message, d: Diff): Message {
    var calls := match d.call
      case NoIndex => m.calls
      case At(i) =>
        var grown := Grown(m.calls, i + 1);
        grown[i := ApplyToCall(grown[i], d.callDelta)];
    Message(m.content + d.contentDelta, m.reasoning + d.reasoningDelta, calls)
  }

  function Replay(m: Message, ds: seq<Diff>): Message
    decreases |ds|
  {
    if ds == [] then m else Replay(Apply(m, ds[0]), ds[1..])
  }

  lemma {:induction false} ReplayConcat(m: Message, a: seq<Diff>, b: seq<Diff>)
    ensures Replay(m, a + b) == Replay(Replay(m, a), b)
    decreases |a|
  {
    if a == [] {
      assert a + b == b;
    } else {
      assert (a + b)[1..] == a[1..] + b;
      ReplayConcat(Apply(m, a[0]), a[1..], b);
    }
  }

  lemma ReplayOne(m: Message, d: Diff)
    ensures Replay(m, [d]) == Apply(m, d)
  {
    assert Replay(m, [d]) == Replay(Apply(m, d), [d][1..]);
  }

  /** The whole of a new call is delivered in one delta. */
  lemma {:induction false} ReplayNewCalls(m: Message, calls: seq<Call>, from: nat)
    requires from <= |calls| && m.calls == calls[..from]
    ensures Replay(m, NewCallDeltas(calls, from)) == m.(calls := calls)
    decreases |calls| - from
  {
    if from == |calls| {
      assert calls[..from] == calls;
    } else {
      var d := Diff("", "", At(from), calls[from]);
      var m' := Apply(m, d);
      assert Grown(m.calls, from + 1) == Grown(m.calls + [NOTHING], from + 1) == calls[..from] + [NOTHING];
      assert ApplyToCall(NOTHING, calls[from]) == calls[from];
      assert m' == m.(calls := calls[..from + 1]);
      assert NewCallDeltas(calls, from)[1..] == NewCallDeltas(calls, from + 1);
      ReplayNewCalls(m', calls, from + 1);
    }
  }

  // ---- exactly when replaying the deltas gives the new message ----

  predicate CallExtends(pref: Call, newf: Call) {
    pref.name <= newf.name && pref.arguments <= newf.arguments && (newf.id == pref.id || newf.id != "")
  }

  /** Reasoning that continues with just the content shown so far, while the content does not grow. */
  predicate RepeatsContent(prv: Message, new_: Message) {
    prv.content != "" && new_.content == prv.content && prv.reasoning + prv.content <= new_.reasoning
  }

  predicate CallsExtend(prv: seq<Call>, new_: seq<Call>) {
    |prv| <= |new_| &&
    (prv != [] ==> prv[..|prv| - 1] == new_[..|prv| - 1] && CallExtends(prv[|prv| - 1], new_[|prv| - 1]))
  }

  predicate Extends(prv: Message, new_: Message) {
    prv.content <= new_.content && prv.reasoning <= new_.reasoning && !RepeatsContent(prv, new_) &&
    CallsExtend(prv.calls, new_.calls)
  }

  lemma ReplayOptional(m: Message, emit: bool, d: Diff)
    ensures Replay(m, Optional(emit, d)) == if emit then Apply(m, d) else m
  {
    ReplayOne(m, d);
  }

  /** Text deltas are appended; one that is not sent is empty. */
  lemma TextReplay(prv: Message, new_: Message)
    requires TextDeltas(prv, new_).Ok?
    ensures Replay(prv, TextDeltas(prv, new_).value)
         == prv.(content := prv.content + ContentDelta(prv, new_).value,
                 reasoning := prv.reasoning + ReasoningDelta(prv, new_).value)
  {
    hide StringDiff, Replay, ContentDelta, ReasoningDelta, Optional;
    var r, c := ReasoningDelta(prv, new_).value, ContentDelta(prv, new_).value;
    var dr, dc := Diff(r, "", NoIndex, NOTHING), Diff("", c, NoIndex, NOTHING);
    ReplayConcat(prv, Optional(r != "", dr), Optional(c != "", dc));
    ReplayOptional(prv, r != "", dr);
    var m := prv.(reasoning := prv.reasoning + r);
    assert prv.content + "" == prv.content && prv.reasoning + "" == prv.reasoning;
    assert m.reasoning + "" == m.reasoning;
    ReplayOptional(m, c != "", dc);
  }

  /** What a client holds for the last known call afterwards. */
  function KnownCallAfter(pref: Call, ds: seq<Diff>): Call {
    if ds == [] then pref else ApplyToCall(pref, ds[0].callDelta)
  }

  lemma KnownCallReplay(m: Message, newf: Call)
    requires m.calls != []
    ensures var idx := |m.calls| - 1;
      var r := KnownCallDelta(idx, m.calls[idx], newf);
      r.Ok? ==> Replay(m, r.value) == m.(calls := m.calls[idx := KnownCallAfter(m.calls[idx], r.value)])
  {
    hide StringDiff;
    var idx := |m.calls| - 1;
    var r := KnownCallDelta(idx, m.calls[idx], newf);
    if r.Ok? {
      if r.value == [] {
        assert m.calls[idx := m.calls[idx]] == m.calls;
      } else {
        ReplayOne(m, r.value[0]);
        assert r.value == [r.value[0]];
        assert m.content + "" == m.content && m.reasoning + "" == m.reasoning;
      }
    }
  }

  lemma KnownCallExact(idx: nat, pref: Call, newf: Call)
    ensures var r := KnownCallDelta(idx, pref, newf);
      r.Ok? && KnownCallAfter(pref, r.value) == newf <==> CallExtends(pref, newf)
  {
    var a := StringDiff(pref.arguments, newf.arguments);
    assert pref.arguments + "" == pref.arguments;
    assert pref.arguments <= newf.arguments <==> a.Ok? && pref.arguments + a.value == newf.arguments;
  }

  lemma ContentExact(prv: Message, new_: Message)
    ensures var r := ContentDelta(prv, new_);
      r.Ok? && prv.content + r.value == new_.content <==> prv.content <= new_.content
  {
    assert prv.content + "" == prv.content;
  }

  lemma ReasoningExact(prv: Message, new_: Message)
    requires prv.content <= new_.content
    ensures var r := ReasoningDelta(prv, new_);
      r.Ok? && prv.reasoning + r.value == new_.reasoning <==>
        prv.reasoning <= new_.reasoning && !RepeatsContent(prv, new_)
  {
    assert prv.reasoning + "" == prv.reasoning;
    var d := StringDiff(prv.reasoning, new_.reasoning);
    if prv.reasoning <= new_.reasoning {
      assert new_.reasoning == prv.reasoning + d.value;
      AppendedPrefix(prv.reasoning, prv.content, d.value);
    }
  }

  lemma AppendedPrefix(a: string, b: string, c: string)
    ensures a + b <= a + c <==> b <= c
  {
    assert (a + b)[|a|..] == b && (a + c)[|a|..] == c;
    if a + b <= a + c {
      assert b == (a + c)[..|a + b|][|a|..];
    }
  }

  lemma CallsReplay(m: Message, new_: seq<Call>)
    requires CallDeltas(m.calls, new_).Ok? && m.calls != []
    ensures var idx := |m.calls| - 1;
      var known := KnownCallDelta(idx, m.calls[idx], new_[idx]).value;
      var after := m.calls[idx := KnownCallAfter(m.calls[idx], known)];
      Replay(m, CallDeltas(m.calls, new_).value) == Replay(m.(calls := after), NewCallDeltas(new_, |m.calls|))
  {
    hide StringDiff, Replay, KnownCallAfter, KnownCallDelta;
    var idx := |m.calls| - 1;
    KnownCallReplay(m, new_[idx]);
    ReplayConcat(m, KnownCallDelta(idx, m.calls[idx], new_[idx]).value, NewCallDeltas(new_, |m.calls|));
  }

  /** Calls a client already holds stay where they are. */
  lemma {:induction false} NewCallsKeep(m: Message, calls: seq<Call>, from: nat)
    requires from <= |calls| && |m.calls| == from
    ensures m.calls <= Replay(m, NewCallDeltas(calls, from)).calls
    decreases |calls| - from
  {
    if from < |calls| {
      var d := Diff("", "", At(from), calls[from]);
      var m' := Apply(m, d);
      assert Grown(m.calls, from + 1) == Grown(m.calls + [NOTHING], from + 1) == m.calls + [NOTHING];
      assert m.calls <= m'.calls && |m'.calls| == from + 1;
      assert NewCallDeltas(calls, from)[1..] == NewCallDeltas(calls, from + 1);
      NewCallsKeep(m', calls, from + 1);
    }
  }

  lemma CallsExact(m: Message, new_: seq<Call>)
    ensures var r := CallDeltas(m.calls, new_);
      r.Ok? && Replay(m, r.value) == m.(calls := new_) <==> CallsExtend(m.calls, new_)
  {
    hide StringDiff, Replay, KnownCallAfter, KnownCallDelta, CallExtends;
    if |new_| < |m.calls| {
    } else if m.calls == [] {
      ReplayNewCalls(m, new_, 0);
    } else {
      var idx := |m.calls| - 1;
      KnownCallExact(idx, m.calls[idx], new_[idx]);
      var known := KnownCallDelta(idx, m.calls[idx], new_[idx]);
      if known.Ok? {
        CallsReplay(m, new_);
        var after := m.calls[idx := KnownCallAfter(m.calls[idx], known.value)];
        NewCallsKeep(m.(calls := after), new_, idx + 1);
        if after == new_[..idx + 1] {
          ReplayNewCalls(m.(calls := after), new_, idx + 1);
        }
        LastChanged(m.calls, new_, KnownCallAfter(m.calls[idx], known.value));
      }
    }
  }

  lemma LastChanged(calls: seq<Call>, new_: seq<Call>, c: Call)
    requires calls != [] && |calls| <= |new_|
    ensures var idx := |calls| - 1;
      calls[idx := c] == new_[..idx + 1] <==> calls[..idx] == new_[..idx] && c == new_[idx]
  {
    var idx := |calls| - 1;
    assert calls[idx := c] == calls[..idx] + [c] && new_[..idx + 1] == new_[..idx] + [new_[idx]];
    assert (calls[..idx] + [c])[..idx] == calls[..idx] && (calls[..idx] + [c])[idx] == c;
    assert (new_[..idx] + [new_[idx]])[..idx] == new_[..idx];
  }

  predicate CallsOnly(ds: seq<Diff>) {
    forall i :: 0 <= i < |ds| ==> ds[i].contentDelta == "" && ds[i].reasoningDelta == ""
  }

  lemma {:induction false} CallsOnlyKeep(m: Message, ds: seq<Diff>)
    requires CallsOnly(ds)
    ensures Replay(m, ds).content == m.content && Replay(m, ds).reasoning == m.reasoning
    decreases |ds|
  {
    if ds != [] {
      assert m.content + "" == m.content && m.reasoning + "" == m.reasoning;
      CallsOnlyKeep(Apply(m, ds[0]), ds[1..]);
    }
  }

  lemma {:induction false} NewCallsOnly(calls: seq<Call>, from: nat)
    requires from <= |calls|
    ensures CallsOnly(NewCallDeltas(calls, from))
    decreases |calls| - from
  {
    if from < |calls| {
      NewCallsOnly(calls, from + 1);
    }
  }

  lemma CallDeltasOnly(prv: seq<Call>, new_: seq<Call>)
    requires CallDeltas(prv, new_).Ok?
    ensures CallsOnly(CallDeltas(prv, new_).value)
  {
    NewCallsOnly(new_, |prv|);
  }

  /** The deltas can be computed and give the new message exactly when it extends the old one. */
  lemma ReplayExactly(prv: Message, new_: Message)
    ensures Diffs(prv, new_).Ok? && Replay(prv, Diffs(prv, new_).value) == new_ <==> Extends(prv, new_)
  {
    hide StringDiff, Replay, ContentDelta, ReasoningDelta, CallDeltas, RepeatsContent, CallsExtend, CallsOnly;
    ContentExact(prv, new_);
    if prv.content <= new_.content {
      ReasoningExact(prv, new_);
    }
    CallsExact(prv, new_.calls);
    if TextDeltas(prv, new_).Ok? {
      TextReplay(prv, new_);
      var m := Replay(prv, TextDeltas(prv, new_).value);
      CallsExact(m, new_.calls);
      if Diffs(prv, new_).Ok? {
        ReplayConcat(prv, TextDeltas(prv, new_).value, CallDeltas(prv.calls, new_.calls).value);
        CallDeltasOnly(prv.calls, new_.calls);
        CallsOnlyKeep(m, CallDeltas(prv.calls, new_.calls).value);
      }
    }
  }

  predicate Compatible(a: string, b: string) {
    a <= b || b <= a
  }

  /** Which pairs of messages have no deltas at all. */
  lemma RaisesExactly(prv: Message, new_: Message)
    ensures Diffs(prv, new_).Ok? <==>
      Compatible(prv.reasoning, new_.reasoning) && Compatible(prv.content, new_.content) &&
      |prv.calls| <= |new_.calls| &&
      (prv.calls != [] ==>
        var pref, newf := prv.calls[|prv.calls| - 1], new_.calls[|prv.calls| - 1];
        Compatible(pref.arguments, newf.arguments) && (newf.name == "" || pref.name <= newf.name))
  {
    hide NewCallDeltas, Optional;
  }

  /** Text taken back from the content and now shown as reasoning is not sent a second time: what was
      streamed before and now is the new reasoning. */
  lemma Reclassified(prv: Message, new_: Message)
    requires prv.content != "" && new_.content < prv.content && new_.calls == prv.calls == []
    requires prv.reasoning + prv.content <= new_.reasoning
    ensures Diffs(prv, new_).Ok?
    ensures var m := Replay(prv, Diffs(prv, new_).value);
      m.content == prv.content && prv.reasoning <= m.reasoning &&
      prv.reasoning + prv.content + m.reasoning[|prv.reasoning|..] == new_.reasoning
  {
    hide StringDiff, Replay, TextDeltas;
    var r, c := ReasoningDelta(prv, new_), ContentDelta(prv, new_);
    TakenBack(prv, new_);
    ContentShrinks(prv, new_);
    TextsOk(prv, new_);
    TextReplay(prv, new_);
    assert NewCallDeltas(new_.calls, 0) == [];
    assert Diffs(prv, new_).value == TextDeltas(prv, new_).value + [] == TextDeltas(prv, new_).value;
    assert prv.content + "" == prv.content;
    assert (prv.reasoning + r.value)[|prv.reasoning|..] == r.value;
  }

  lemma TextsOk(prv: Message, new_: Message)
    requires ReasoningDelta(prv, new_).Ok? && ContentDelta(prv, new_).Ok?
    ensures TextDeltas(prv, new_).Ok?
  {
  }

  lemma TakenBack(prv: Message, new_: Message)
    requires prv.content != "" && new_.content < prv.content && prv.reasoning + prv.content <= new_.reasoning
    ensures ReasoningDelta(prv, new_).Ok?
    ensures prv.reasoning + prv.content + ReasoningDelta(prv, new_).value == new_.reasoning
  {
    hide StringDiff;
    var d := StringDiff(prv.reasoning, new_.reasoning);
    PrefixOfSum(prv.reasoning, prv.content, new_.reasoning);
    assert |prv.reasoning + prv.content| > |prv.reasoning|;
    assert d.Ok? && prv.reasoning + d.value == new_.reasoning;
    AppendedPrefix(prv.reasoning, prv.content, d.value);
    var rest := d.value[|prv.content|..];
    assert d.value == prv.content + rest;
    assert prv.reasoning + (prv.content + rest) == prv.reasoning + prv.content + rest;
  }

  lemma ContentShrinks(prv: Message, new_: Message)
    requires new_.content < prv.content
    ensures ContentDelta(prv, new_) == Ok("")
  {
  }

  lemma PrefixOfSum(a: string, b: string, c: string)
    requires a + b <= c
    ensures a <= c
  {
    assert a == (a + b)[..|a|];
    assert c[..|a + b|][..|a|] == c[..|a|];
  }

  /** The usual way a message grows: texts by appending, reasoning only while there is no content, and
      of the known calls only the last, by appending to its arguments. */
  predicate Grows(prv: Message, new_: Message) {
    prv.content <= new_.content && prv.reasoning <= new_.reasoning &&
    (prv.reasoning != new_.reasoning ==> prv.content == "") &&
    CallsExtend(prv.calls, new_.calls)
  }

  lemma GrowsExtends(prv: Message, new_: Message)
    requires Grows(prv, new_)
    ensures Extends(prv, new_)
  {
    assert |prv.reasoning + prv.content| == |prv.reasoning| + |prv.content|;
  }

  // ---- whole chains of messages ----

  predicate Chain(m: Message, ms: seq<Message>)
    decreases |ms|
  {
    ms == [] || (Extends(m, ms[0]) && Chain(ms[0], ms[1..]))
  }

  function AllDiffs(m: Message, ms: seq<Message>): Result<seq<Diff>>
    decreases |ms|
  {
    if ms == [] then Ok([])
    else
      var first :- Diffs(m, ms[0]);
      var rest :- AllDiffs(ms[0], ms[1..]);
      Ok(first + rest)
  }

  /** Along a chain no delta fails, and all of them applied to the first message give the last. */
  lemma {:induction false} ChainReplays(m: Message, ms: seq<Message>)
    requires Chain(m, ms)
    ensures AllDiffs(m, ms).Ok?
    ensures Replay(m, AllDiffs(m, ms).value) == if ms == [] then m else ms[|ms| - 1]
    decreases |ms|
  {
    hide Diffs, Extends;
    if ms != [] {
      ReplayExactly(m, ms[0]);
      ChainReplays(ms[0], ms[1..]);
      ReplayConcat(m, Diffs(m, ms[0]).value, AllDiffs(ms[0], ms[1..]).value);
    }
  }

  // ---- ids of tool calls ----

  /** The id of call i is the first one seen for it, or a generated one when it came without. */
  function IdsAfter(ids: seq<string>, calls: seq<Call>, gen: nat -> string): (r: seq<string>)
    ensures |r| == if |ids| < |calls| then |calls| else |ids|
    ensures ids <= r
    decreases |calls| - |ids|
  {
    if |ids| >= |calls| then ids
    else
      var id := if calls[|ids|].id == "" then gen(|ids|) else calls[|ids|].id;
      IdsAfter(ids + [id], calls, gen)
  }

  function WithIds(calls: seq<Call>, ids: seq<string>): (r: seq<Call>)
    requires |calls| <= |ids|
    ensures |r| == |calls|
    ensures forall i :: 0 <= i < |r| ==> r[i] == calls[i].(id := ids[i])
  {
    seq(|calls|, i requires 0 <= i < |calls| => calls[i].(id := ids[i]))
  }

  datatype State = State(message: Message, ids: seq<string>)

  /** One update with a newly parsed message; an empty one is ignored. */
  function Step(s: State, parsed: Message, gen: nat -> string): State {
    if parsed.IsEmpty() then s
    else
      var ids := IdsAfter(s.ids, parsed.calls, gen);
      State(parsed.(calls := WithIds(parsed.calls, ids)), ids)
  }

  function StepDiffs(s: State, parsed: Message, gen: nat -> string): Result<seq<Diff>> {
    if parsed.IsEmpty() then Ok([]) else Diffs(s.message, Step(s, parsed, gen).message)
  }

  /** The part of a server slot that turns parsed messages into deltas. */
  class Slot {
    var chatMsg: Message
    var generatedToolCallIds: seq<string>

    constructor ()
      ensures Now() == State(Message("", "", []), [])
    {
      chatMsg := Message("", "", []);
      generatedToolCallIds := [];
    }

    function Now(): State
      reads this
    {
      State(chatMsg, generatedToolCallIds)
    }

    method SetToolCallIds(calls: seq<Call>, gen: nat -> string) returns (toolCalls: seq<Call>)
      modifies this`generatedToolCallIds
      ensures generatedToolCallIds == IdsAfter(old(generatedToolCallIds), calls, gen)
      ensures toolCalls == WithIds(calls, generatedToolCallIds)
    {
      toolCalls := calls;
      for i := 0 to |calls|
        invariant |generatedToolCallIds| >= i && |toolCalls| == |calls|
        invariant IdsAfter(generatedToolCallIds, calls, gen) == IdsAfter(old(generatedToolCallIds), calls, gen)
        invariant forall k :: 0 <= k < i ==> toolCalls[k] == calls[k].(id := generatedToolCallIds[k])
        invariant forall k :: i <= k < |calls| ==> toolCalls[k] == calls[k]
      {
        if |generatedToolCallIds| <= i {
          var id := toolCalls[i].id;
          if id == "" {
            id := gen(i);
          }
          generatedToolCallIds := generatedToolCallIds + [id];
        }
        toolCalls := toolCalls[i := toolCalls[i].(id := generatedToolCallIds[i])];
      }
    }

    method UpdateChatMsg(parsed: Message, gen: nat -> string) returns (diffs: Result<seq<Diff>>)
      modifies this
      ensures Now() == Step(old(Now()), parsed, gen)
      ensures diffs == StepDiffs(old(Now()), parsed, gen)
    {
      var msgPrvCopy := chatMsg;
      diffs := Ok([]);
      if !parsed.IsEmpty() {
        var calls := SetToolCallIds(parsed.calls, gen);
        chatMsg := parsed.(calls := calls);
        diffs := ComputeDiffs(msgPrvCopy, chatMsg);
      }
    }
  }

  function Run(s: State, parsed: seq<Message>, gen: nat -> string): State
    decreases |parsed|
  {
    if parsed == [] then s else Run(Step(s, parsed[0], gen), parsed[1..], gen)
  }

  function RunDiffs(s: State, parsed: seq<Message>, gen: nat -> string): Result<seq<Diff>>
    decreases |parsed|
  {
    if parsed == [] then Ok([])
    else
      var first :- StepDiffs(s, parsed[0], gen);
      var rest :- RunDiffs(Step(s, parsed[0], gen), parsed[1..], gen);
      Ok(first + rest)
  }

  /** Every call of the current message has its id in the cache. */
  predicate Consistent(s: State) {
    |s.message.calls| <= |s.ids| && s.message.calls == WithIds(s.message.calls, s.ids)
  }

  predicate CallsExtendButIds(prv: seq<Call>, new_: seq<Call>) {
    |prv| <= |new_| &&
    forall i :: 0 <= i < |prv| ==>
      if i < |prv| - 1 then prv[i].name == new_[i].name && prv[i].arguments == new_[i].arguments
      else prv[i].name <= new_[i].name && prv[i].arguments <= new_[i].arguments
  }

  /** The parsed message extends what was shown, whatever ids it comes with. */
  predicate ExtendsButIds(prv: Message, new_: Message) {
    prv.content <= new_.content && prv.reasoning <= new_.reasoning && !RepeatsContent(prv, new_) &&
    CallsExtendButIds(prv.calls, new_.calls)
  }

  lemma CallsWithIds(prv: seq<Call>, new_: seq<Call>, ids: seq<string>, ids': seq<string>)
    requires |prv| <= |ids| && prv == WithIds(prv, ids) && ids <= ids' && |new_| <= |ids'|
    ensures CallsExtend(prv, WithIds(new_, ids')) <==> CallsExtendButIds(prv, new_)
  {
    var now := WithIds(new_, ids');
    assert forall i :: 0 <= i < |prv| ==> prv[i].id == ids[i] == ids'[i];
    if |prv| <= |new_| && prv != [] {
      var last := |prv| - 1;
      assert prv[last].id == now[last].id;
      if CallsExtend(prv, now) {
        assert forall i :: 0 <= i < last ==> prv[i] == prv[..last][i] && now[i] == now[..last][i];
      }
    }
  }

  /** With the shared ids, an update sends deltas that give the new message exactly when the parsed
      message extends the one before, ids aside. */
  lemma StepExactly(s: State, parsed: Message, gen: nat -> string)
    requires Consistent(s) && !parsed.IsEmpty()
    ensures var d := StepDiffs(s, parsed, gen);
      d.Ok? && Replay(s.message, d.value) == Step(s, parsed, gen).message <==> ExtendsButIds(s.message, parsed)
  {
    hide Diffs, Replay, IdsAfter, WithIds, CallsExtend, CallsExtendButIds;
    ReplayExactly(s.message, Step(s, parsed, gen).message);
    CallsWithIds(s.message.calls, parsed.calls, s.ids, IdsAfter(s.ids, parsed.calls, gen));
  }

  lemma StepKeeps(s: State, parsed: Message, gen: nat -> string)
    requires Consistent(s)
    ensures Consistent(Step(s, parsed, gen)) && s.ids <= Step(s, parsed, gen).ids
  {
    if !parsed.IsEmpty() {
      var ids := IdsAfter(s.ids, parsed.calls, gen);
      var calls := WithIds(parsed.calls, ids);
      assert WithIds(calls, ids) == calls;
    }
  }

  predicate RunExtends(s: State, parsed: seq<Message>, gen: nat -> string)
    decreases |parsed|
  {
    parsed == [] ||
    ((parsed[0].IsEmpty() || ExtendsButIds(s.message, parsed[0])) &&
     RunExtends(Step(s, parsed[0], gen), parsed[1..], gen))
  }

  /** Over a whole run nothing fails, the deltas give the final message, and an id once assigned to
      a call is the id of that call in every later message. */
  lemma {:induction false} RunReplays(s: State, parsed: seq<Message>, gen: nat -> string)
    requires Consistent(s) && RunExtends(s, parsed, gen)
    ensures var end := Run(s, parsed, gen);
      var d := RunDiffs(s, parsed, gen);
      d.Ok? && Replay(s.message, d.value) == end.message && s.ids <= end.ids && Consistent(end)
    decreases |parsed|
  {
    hide Diffs, ExtendsButIds, Step, StepDiffs, Consistent;
    if parsed != [] {
      var s' := Step(s, parsed[0], gen);
      StepKeeps(s, parsed[0], gen);
      StepReplays(s, parsed[0], gen);
      RunReplays(s', parsed[1..], gen);
      ReplayConcat(s.message, StepDiffs(s, parsed[0], gen).value, RunDiffs(s', parsed[1..], gen).value);
    }
  }

  lemma StepReplays(s: State, parsed: Message, gen: nat -> string)
    requires Consistent(s) && (parsed.IsEmpty() || ExtendsButIds(s.message, parsed))
    ensures var d := StepDiffs(s, parsed, gen);
      d.Ok? && Replay(s.message, d.value) == Step(s, parsed, gen).message
  {
    if !parsed.IsEmpty() {
      StepExactly(s, parsed, gen);
    }
  }
}
