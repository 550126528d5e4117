/** The deltas between two messages written out, and which id a call keeps. */
module Deltas {
  import opened Wrappers
  import opened Streaming

  /** What is sent of a text that has grown. */
  function Grown(last: string, current: string): string
    requires last <= current
  {
    current[|last|..]
  }

  /** What is sent of a call that has changed: its name and its id only if one of them is new. */
  function CallChange(last: Call, current: Call): Call
    requires last.arguments <= current.arguments
  {
    var arguments := Grown(last.arguments, current.arguments);
    if last.name == current.name && last.id == current.id then Call("", arguments, "")
    else Call(current.name, arguments, current.id)
  }

  function NewCalls(calls: seq<Call>, from: nat): seq<Diff>
    requires from <= |calls|
  {
    seq(|calls| - from, k requires 0 <= k < |calls| - from => Diff("", "", At(from + k), calls[from + k]))
  }

  /** Only what is new is sent, and nothing else: reasoning, content, the last call if it has changed, and each new
      call as a whole. */
  lemma DeltasSent(prv: Message, new_: Message)
    requires Extends(prv, new_)
    ensures var n := |prv.calls|; Diffs(prv, new_) == Ok(
      (if prv.reasoning == new_.reasoning then []
       else [Diff(Grown(prv.reasoning, new_.reasoning), "", NoIndex, Call("", "", ""))])
      + (if prv.content == new_.content then [] else [Diff("", Grown(prv.content, new_.content), NoIndex, Call("", "", ""))])
      + ((if n == 0 || prv.calls[n - 1] == new_.calls[n - 1] then []
          else [Diff("", "", At(n - 1), CallChange(prv.calls[n - 1], new_.calls[n - 1]))])
         + NewCalls(new_.calls, n)))
  {
    hide NewCallDeltas, KnownCallDelta, TextDeltas, NewCalls, CallChange;
    TextsSent(prv, new_);
    var n := |prv.calls|;
    NewCallsSent(new_.calls, n);
    if n > 0 {
      KnownSent(n - 1, prv.calls[n - 1], new_.calls[n - 1]);
    } else {
      assert [] + NewCalls(new_.calls, n) == NewCalls(new_.calls, n);
    }
  }

  lemma TextsSent(prv: Message, new_: Message)
    requires Extends(prv, new_)
    ensures TextDeltas(prv, new_) == Ok(
      (if prv.reasoning == new_.reasoning then []
       else [Diff(Grown(prv.reasoning, new_.reasoning), "", NoIndex, Call("", "", ""))])
      + (if prv.content == new_.content then [] else [Diff("", Grown(prv.content, new_.content), NoIndex, Call("", "", ""))]))
  {
    hide StringDiff;
    RestSent(prv.reasoning, new_.reasoning);
    RestSent(prv.content, new_.content);
    NotTrimmed(prv, new_);
  }

  lemma RestSent(last: string, current: string)
    requires last <= current
    ensures StringDiff(last, current) == Ok(Grown(last, current))
    ensures Grown(last, current) == "" <==> last == current
  {
  }

  lemma NotTrimmed(prv: Message, new_: Message)
    requires Extends(prv, new_)
    ensures !(prv.content != "" && prv.content <= Grown(prv.reasoning, new_.reasoning) && new_.content <= prv.content)
  {
    var delta := Grown(prv.reasoning, new_.reasoning);
    assert new_.reasoning == prv.reasoning + delta;
    assert prv.content <= delta ==> prv.reasoning + prv.content <= prv.reasoning + delta;
  }

  lemma KnownSent(idx: nat, last: Call, current: Call)
    requires CallExtends(last, current)
    ensures KnownCallDelta(idx, last, current) ==
      Ok(if last == current then [] else [Diff("", "", At(idx), CallChange(last, current))])
  {
    hide StringDiff;
    RestSent(last.arguments, current.arguments);
  }

  lemma {:induction false} NewCallsSent(calls: seq<Call>, from: nat)
    requires from <= |calls|
    ensures NewCallDeltas(calls, from) == NewCalls(calls, from)
    decreases |calls| - from
  {
    if from < |calls| {
      NewCallsSent(calls, from + 1);
    }
  }

  // ---- ids ----

  /** The id that a call comes with, or a generated one. */
  predicate IsIdOf(call: Call, i: nat, gen: nat -> string, id: string) {
    if call.id == "" then id == gen(i) else id == call.id
  }

  lemma {:induction false} IdsGiven(ids: seq<string>, calls: seq<Call>, gen: nat -> string)
    ensures var r := IdsAfter(ids, calls, gen);
      forall i :: 0 <= i < |r| ==> if i < |ids| then r[i] == ids[i] else i < |calls| && IsIdOf(calls[i], i, gen, r[i])
    decreases |calls| - |ids|
  {
    if |ids| < |calls| {
      var id := if calls[|ids|].id == "" then gen(|ids|) else calls[|ids|].id;
      IdsGiven(ids + [id], calls, gen);
    }
  }

  lemma {:induction false} IdsGrow(s: State, parsed: seq<Message>, gen: nat -> string, k: nat)
    requires k <= |parsed|
    ensures Run(s, parsed[..k], gen).ids <= Run(s, parsed, gen).ids
    decreases |parsed|
  {
    hide Step;
    if k > 0 {
      assert parsed[..k][1..] == parsed[1..][..k - 1];
      IdsGrow(Step(s, parsed[0], gen), parsed[1..], gen, k - 1);
    } else if parsed != [] {
      assert parsed[..0] == [] && parsed[1..][..0] == [];
      IdsGrow(Step(s, parsed[0], gen), parsed[1..], gen, 0);
      StepIds(s, parsed[0], gen);
    }
  }

  lemma StepIds(s: State, parsed: Message, gen: nat -> string)
    ensures s.ids <= Step(s, parsed, gen).ids
    ensures |Step(s, parsed, gen).ids| == if |s.ids| < |parsed.calls| then |parsed.calls| else |s.ids|
  {
  }

  lemma {:induction false} IdsFew(s: State, parsed: seq<Message>, gen: nat -> string, i: nat)
    requires |s.ids| <= i && forall j :: 0 <= j < |parsed| ==> |parsed[j].calls| <= i
    ensures |Run(s, parsed, gen).ids| <= i
    decreases |parsed|
  {
    hide Step;
    if parsed != [] {
      StepIds(s, parsed[0], gen);
      IdsFew(Step(s, parsed[0], gen), parsed[1..], gen, i);
    }
  }

  lemma {:induction false} RunLast(s: State, parsed: seq<Message>, gen: nat -> string)
    requires parsed != []
    ensures Run(s, parsed, gen) == Step(Run(s, parsed[..|parsed| - 1], gen), parsed[|parsed| - 1], gen)
    decreases |parsed|
  {
    hide Step;
    if |parsed| > 1 {
      RunLast(Step(s, parsed[0], gen), parsed[1..], gen);
      assert parsed[1..][..|parsed| - 2] == parsed[..|parsed| - 1][1..];
    } else {
      assert parsed[1..] == [] && parsed[..0] == [];
    }
  }

  lemma {:induction false} RunConsistent(s: State, parsed: seq<Message>, gen: nat -> string)
    requires Consistent(s)
    ensures Consistent(Run(s, parsed, gen))
    decreases |parsed|
  {
    hide Step, Consistent;
    if parsed != [] {
      StepKeeps(s, parsed[0], gen);
      RunConsistent(Step(s, parsed[0], gen), parsed[1..], gen);
    }
  }

  /** A call keeps the id it came with in the first message that had it, or the one generated then. */
  lemma FirstIdStays(parsed: seq<Message>, gen: nat -> string, k: nat, i: nat)
    requires k < |parsed| && i < |parsed[k].calls| && forall j :: 0 <= j < k ==> |parsed[j].calls| <= i
    ensures var end := Run(State(Message("", "", []), []), parsed, gen);
      i < |end.message.calls| ==> IsIdOf(parsed[k].calls[i], i, gen, end.message.calls[i].id)
  {
    hide Step, Consistent;
    var s := State(Message("", "", []), []);
    assert Consistent(s) by { NothingShown(); }
    RunConsistent(s, parsed, gen);
    IdsFew(s, parsed[..k], gen, i);
    RunLast(s, parsed[..k + 1], gen);
    assert parsed[..k + 1][..k] == parsed[..k];
    var before := Run(s, parsed[..k], gen);
    FirstGiven(before, parsed[k], gen, i);
    IdsGrow(s, parsed, gen, k + 1);
    if i < |Run(s, parsed, gen).message.calls| {
      HasItsId(Run(s, parsed, gen), i);
    }
  }

  lemma NothingShown()
    ensures Consistent(State(Message("", "", []), []))
  {
  }

  lemma FirstGiven(s: State, parsed: Message, gen: nat -> string, i: nat)
    requires |s.ids| <= i < |parsed.calls|
    ensures var ids := Step(s, parsed, gen).ids; i < |ids| && IsIdOf(parsed.calls[i], i, gen, ids[i])
  {
    IdsGiven(s.ids, parsed.calls, gen);
  }

  lemma HasItsId(s: State, i: nat)
    requires Consistent(s) && i < |s.message.calls|
    ensures i < |s.ids| && s.message.calls[i].id == s.ids[i]
  {
  }
}
