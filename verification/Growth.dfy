/** Messages that only grow: their deltas, and what a slot and its client hold along a chain of them. */
module Growth {
  import Streaming

  type Call = Streaming.Call
  type Message = Streaming.Message

  /** Nothing that was shown is taken back. With reasoning first, none comes once there is content. */
  predicate Lengthens(first: bool, prv: Message, new_: Message) {
    prv.content <= new_.content && prv.reasoning <= new_.reasoning && Streaming.CallsExtend(prv.calls, new_.calls) &&
    (first ==> prv.reasoning != new_.reasoning ==> prv.content == "")
  }

  lemma CallsExtendTwice(a: seq<Call>, b: seq<Call>, c: seq<Call>)
    requires Streaming.CallsExtend(a, b) && Streaming.CallsExtend(b, c)
    ensures Streaming.CallsExtend(a, c)
  {
    if a != [] {
      var i := |a| - 1;
      assert c[..i] == a[..i] by {
        assert b[..|b| - 1] == c[..|b| - 1];
        assert b[..i] == b[..|b| - 1][..i] && c[..i] == c[..|b| - 1][..i];
      }
      if |b| > |a| {
        assert b[..|b| - 1][i] == c[..|b| - 1][i];
      }
    }
  }

  lemma GrowsTwice(first: bool, a: Message, b: Message, c: Message)
    requires Lengthens(first, a, b) && Lengthens(first, b, c)
    ensures Lengthens(first, a, c)
  {
    hide Streaming.CallsExtend;
    CallsExtendTwice(a.calls, b.calls, c.calls);
  }

  lemma GrowsSelf(first: bool, a: Message)
    ensures Lengthens(first, a, a)
  {
  }

  lemma NamedGrows(calls: seq<Call>, now: seq<Call>, later: seq<Call>)
    requires |now| == |later| == |calls| + 1 && now[..|calls|] == later[..|calls|] == calls
    requires var x, y := now[|calls|], later[|calls|];
      x.name <= y.name && x.arguments <= y.arguments && (y.id == x.id || y.id != "")
    ensures Streaming.CallsExtend(now, later)
  {
  }

  lemma OneMore(calls: seq<Call>, c: Call)
    ensures Streaming.CallsExtend(calls, calls + [c])
  {
  }

  lemma SameCalls(calls: seq<Call>)
    ensures Streaming.CallsExtend(calls, calls)
  {
  }

  lemma LengthensExtends(first: bool, prv: Message, new_: Message)
    requires Lengthens(first, prv, new_)
    ensures Streaming.Extends(prv, new_) <==> !Streaming.RepeatsContent(prv, new_)
    ensures first ==> !Streaming.RepeatsContent(prv, new_)
    ensures Streaming.Diffs(prv, new_).Ok?
  {
    hide Streaming.Diffs;
    Streaming.RaisesExactly(prv, new_);
    if first {
      Streaming.GrowsExtends(prv, new_);
    }
  }

  /** The message a slot holds, but for the ids it gave. */
  predicate SameButIds(a: Message, b: Message) {
    a.content == b.content && a.reasoning == b.reasoning && |a.calls| == |b.calls| &&
    forall i :: 0 <= i < |a.calls| ==> a.calls[i].name == b.calls[i].name && a.calls[i].arguments == b.calls[i].arguments
  }

  lemma ExtendsToo(held: Message, prv: Message, new_: Message)
    requires SameButIds(held, prv) && Streaming.Extends(prv, new_)
    ensures Streaming.ExtendsButIds(held, new_)
  {
    if prv.calls != [] {
      var last := |prv.calls| - 1;
      forall i | 0 <= i < last ensures prv.calls[i] == new_.calls[i] {
        assert prv.calls[..last][i] == new_.calls[..last][i];
      }
    }
  }

  /** A slot that has taken a message holds it, but for the ids. */
  lemma Holds(first: bool, s: Streaming.State, prv: Message, parsed: Message, gen: nat -> string)
    requires SameButIds(s.message, prv) && Lengthens(first, prv, parsed)
    ensures SameButIds(Streaming.Step(s, parsed, gen).message, parsed)
  {
  }

  // ---- chains of messages ----

  /** Each message lengthens the one before, and no reasoning goes on with just the content shown. */
  predicate Chain(first: bool, prv: Message, ms: seq<Message>)
    decreases |ms|
  {
    ms == [] || (Lengthens(first, prv, ms[0]) && !Streaming.RepeatsContent(prv, ms[0]) && Chain(first, ms[0], ms[1..]))
  }

  lemma {:induction false} ChainFollows(first: bool, prv: Message, ms: seq<Message>, s: Streaming.State, gen: nat -> string)
    requires Chain(first, prv, ms) && SameButIds(s.message, prv)
    ensures Streaming.RunExtends(s, ms, gen)
    ensures SameButIds(Streaming.Run(s, ms, gen).message, if ms == [] then prv else ms[|ms| - 1])
    decreases |ms|
  {
    hide SameButIds, Lengthens, Streaming.RepeatsContent, Streaming.Diffs, Streaming.Step, Streaming.ExtendsButIds, Streaming.Extends;
    if ms != [] {
      LengthensExtends(first, prv, ms[0]);
      ExtendsToo(s.message, prv, ms[0]);
      Holds(first, s, prv, ms[0], gen);
      ChainFollows(first, ms[0], ms[1..], Streaming.Step(s, ms[0], gen), gen);
    }
  }

  const EMPTY := Streaming.Message("", "", [])

  /** A slot that is updated along a chain never fails, and a client that applies the deltas holds the last
      message, with the ids that were given once and for all. */
  lemma ChainStreams(first: bool, ms: seq<Message>, gen: nat -> string)
    requires ms != [] && Chain(first, EMPTY, ms)
    ensures var d := Streaming.RunDiffs(Streaming.State(EMPTY, []), ms, gen);
      d.Ok? && SameButIds(Streaming.Replay(EMPTY, d.value), ms[|ms| - 1])
  {
    hide Chain, Streaming.RunDiffs, Streaming.Replay, Streaming.RunExtends, Streaming.Run;
    var s := Streaming.State(EMPTY, []);
    ChainFollows(first, EMPTY, ms, s, gen);
    Streaming.RunReplays(s, ms, gen);
  }
}
