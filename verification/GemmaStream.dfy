/** From the trees of a Gemma parse that goes on and on to the deltas a client receives. */
module GemmaStream {
  import opened Wrappers
  import opened Json
  import opened Gemma
  import opened Growth
  import Streaming

  // ---- the mapper ----

  /** The first node with a tag below, in the order in which the nodes are written, to a limited depth. */
  function FindByTag(ts: seq<Tree>, tag: Tag, maxDepth: nat): Option<Tree> {
    if ts == [] then None
    else if ts[0].tag == tag then Some(ts[0])
    else
      var below := if maxDepth > 1 then FindByTag(ts[0].children, tag, maxDepth - 1) else None;
      if below.Some? then below else FindByTag(ts[1..], tag, maxDepth)
  }

  const MAX_DEPTH := 3

  /** The call of a tool node, once it has its whole name and its arguments have begun. */
  function CallOf(t: Tree): Option<Call> {
    var name :- FindByTag(t.children, ToolName, MAX_DEPTH);
    var args :- FindByTag(t.children, ToolArgs, MAX_DEPTH);
    if name.isPartial then None
    else Some(Streaming.Call(name.text, if args.children == [] then "" else ToJson(args.children[0]), ""))
  }

  function Visit(t: Tree, m: Message): Message
    decreases t
  {
    match t.tag
    case Reasoning => m.(reasoning := m.reasoning + t.text)
    case Content => m.(content := m.content + t.text)
    case Tool =>
      (match CallOf(t)
       case None => m
       case Some(call) => m.(calls := m.calls + [call]))
    case _ => VisitAll(t.children, m)
  }

  function VisitAll(ts: seq<Tree>, m: Message): Message
    decreases ts
  {
    if ts == [] then m else VisitAll(ts[1..], Visit(ts[0], m))
  }

  /** The mapper object: its result after a walk over the tree. */
  class Gemma4Mapper {
    var result: Message

    constructor ()
      ensures result == EMPTY
    {
      result := EMPTY;
    }

    method VisitNode(t: Tree)
      modifies this
      ensures result == Visit(t, old(result))
      decreases t, 0
    {
      if t.tag == Reasoning {
        result := result.(reasoning := result.reasoning + t.text);
        return;
      }
      if t.tag == Content {
        result := result.(content := result.content + t.text);
        return;
      }
      if t.tag == Tool {
        var name, args := FindByTag(t.children, ToolName, MAX_DEPTH), FindByTag(t.children, ToolArgs, MAX_DEPTH);
        if name.Some? && args.Some? {
          if !name.value.isPartial {
            var call := Streaming.Call(name.value.text, "", "");
            if args.value.children != [] {
              call := call.(arguments := ToJson(args.value.children[0]));
            }
            result := result.(calls := result.calls + [call]);
          }
        }
        return;
      }
      VisitNodes(t.children);
    }

    method VisitNodes(ts: seq<Tree>)
      modifies this
      ensures result == VisitAll(ts, old(result))
      decreases ts, 1
    {
      for i := 0 to |ts|
        invariant VisitAll(ts[i..], result) == VisitAll(ts, old(result))
      {
        assert ts[i..][1..] == ts[i + 1..];
        VisitNode(ts[i]);
      }
    }
  }

  // ---- growth ----

  lemma {:induction false} FindGrows(ts: seq<Tree>, us: seq<Tree>, tag: Tag, maxDepth: nat)
    requires AllGrow(ts, us) && FindByTag(ts, tag, maxDepth).Some?
    ensures FindByTag(us, tag, maxDepth).Some?
    ensures Grows(FindByTag(ts, tag, maxDepth).value, FindByTag(us, tag, maxDepth).value)
    decreases ts
  {
    if |ts| == 1 {
      assert ts[1..] == [];
      if ts[0] != us[0] {
        GrowsPartial(ts[0], us[0]);
        if ts[0].tag != tag {
          FindGrows(ts[0].children, us[0].children, tag, maxDepth - 1);
        }
      }
    } else if ts[0].tag != tag && (maxDepth <= 1 || FindByTag(ts[0].children, tag, maxDepth - 1).None?) {
      FindGrows(ts[1..], us[1..], tag, maxDepth);
    }
  }

  /** A call that is shown keeps its name, and its arguments grow. */
  lemma CallGrows(t: Tree, u: Tree)
    requires Grows(t, u) && CallOf(t).Some?
    ensures CallOf(u).Some? && CallOf(u).value.name == CallOf(t).value.name && CallOf(t).value.id == CallOf(u).value.id == ""
    ensures CallOf(t).value.arguments <= CallOf(u).value.arguments
  {
    hide FindByTag, ToJson, AllGrow;
    if t != u {
      GrowsPartial(t, u);
      FindGrows(t.children, u.children, ToolName, MAX_DEPTH);
      FindGrows(t.children, u.children, ToolArgs, MAX_DEPTH);
      var a, b := FindByTag(t.children, ToolArgs, MAX_DEPTH).value, FindByTag(u.children, ToolArgs, MAX_DEPTH).value;
      if a != b && a.children != [] {
        GrowsPartial(a, b);
        FirstGrows(a.children, b.children);
      }
    }
  }

  lemma AppendedText(a: string, x: string, y: string)
    requires x <= y
    ensures a + x <= a + y && a <= a + x
  {
  }

  lemma {:induction false} MoreLengthens(t: Tree, m: Message)
    ensures Lengthens(false, m, Visit(t, m))
    decreases t, 0
  {
    hide Streaming.CallsExtend, CallOf;
    SameCalls(m.calls);
    match t.tag
    case Reasoning => AppendedText(m.reasoning, "", t.text);
    case Content => AppendedText(m.content, "", t.text);
    case Tool =>
      if CallOf(t).Some? {
        OneMore(m.calls, CallOf(t).value);
      }
    case _ => AllLengthen(t.children, m);
  }

  lemma {:induction false} AllLengthen(ts: seq<Tree>, m: Message)
    ensures Lengthens(false, m, VisitAll(ts, m))
    decreases ts, 1
  {
    hide Lengthens, Visit;
    GrowsSelf(false, m);
    if ts != [] {
      MoreLengthens(ts[0], m);
      AllLengthen(ts[1..], Visit(ts[0], m));
      GrowsTwice(false, m, Visit(ts[0], m), VisitAll(ts, m));
    }
  }

  lemma {:induction false} TreeLengthens(t: Tree, u: Tree, m: Message)
    requires Grows(t, u)
    ensures Lengthens(false, Visit(t, m), Visit(u, m))
    decreases t, 0
  {
    hide Streaming.CallsExtend, CallOf, Grows, AllGrow, VisitAll;
    GrowsSelf(false, Visit(t, m));
    SameCalls(m.calls);
    if t != u {
      GrowsPartial(t, u);
      match t.tag
      case Reasoning => AppendedText(m.reasoning, t.text, u.text);
      case Content => AppendedText(m.content, t.text, u.text);
      case Tool =>
        if CallOf(t).Some? {
          CallGrows(t, u);
          NamedGrows(m.calls, m.calls + [CallOf(t).value], m.calls + [CallOf(u).value]);
        } else if CallOf(u).Some? {
          OneMore(m.calls, CallOf(u).value);
        }
      case _ => AllTreesLengthen(t.children, u.children, m);
    }
  }

  /** What the trees of a parse show is never taken back by trees they grow into. */
  lemma {:induction false} AllTreesLengthen(ts: seq<Tree>, us: seq<Tree>, m: Message)
    requires AllGrow(ts, us)
    ensures Lengthens(false, VisitAll(ts, m), VisitAll(us, m))
    decreases ts, 1
  {
    hide Lengthens, Visit, Grows;
    if ts == [] {
      AllLengthen(us, m);
    } else if |ts| == 1 {
      assert ts[1..] == [];
      TreeLengthens(ts[0], us[0], m);
      AllLengthen(us[1..], Visit(us[0], m));
      GrowsTwice(false, Visit(ts[0], m), Visit(us[0], m), VisitAll(us, m));
    } else {
      AllTreesLengthen(ts[1..], us[1..], Visit(ts[0], m));
    }
  }

  function MessageOf(ts: seq<Tree>): Message {
    VisitAll(ts, EMPTY)
  }

  /** So the deltas between the messages of two such moments can be computed, and they give the later message
      except exactly when nothing was added but reasoning that goes on with just the content shown. */
  lemma TreesReplay(ts: seq<Tree>, us: seq<Tree>)
    requires AllGrow(ts, us)
    ensures var d := Streaming.Diffs(MessageOf(ts), MessageOf(us));
      d.Ok? &&
      (Streaming.Replay(MessageOf(ts), d.value) == MessageOf(us) <==> !Streaming.RepeatsContent(MessageOf(ts), MessageOf(us)))
  {
    hide VisitAll, AllGrow, Streaming.Diffs, Streaming.Replay, Lengthens, Streaming.Extends, Streaming.RepeatsContent;
    AllTreesLengthen(ts, us, EMPTY);
    LengthensExtends(false, MessageOf(ts), MessageOf(us));
    Streaming.ReplayExactly(MessageOf(ts), MessageOf(us));
  }

  // ---- a slot that follows a parse ----

  /** The trees of longer and longer beginnings of one output. */
  predicate Growing(ts: seq<Tree>, moments: seq<seq<Tree>>)
    decreases |moments|
  {
    moments == [] || (AllGrow(ts, moments[0]) && Growing(moments[0], moments[1..]))
  }

  function Messages(moments: seq<seq<Tree>>): (ms: seq<Message>)
    ensures |ms| == |moments| && forall i :: 0 <= i < |ms| ==> ms[i] == MessageOf(moments[i])
  {
    seq(|moments|, i requires 0 <= i < |moments| => MessageOf(moments[i]))
  }

  predicate NeverRepeats(prv: Message, ms: seq<Message>)
    decreases |ms|
  {
    ms == [] || (!Streaming.RepeatsContent(prv, ms[0]) && NeverRepeats(ms[0], ms[1..]))
  }

  lemma {:induction false} TreesChain(ts: seq<Tree>, moments: seq<seq<Tree>>)
    requires Growing(ts, moments) && NeverRepeats(MessageOf(ts), Messages(moments))
    ensures Chain(false, MessageOf(ts), Messages(moments))
    decreases |moments|
  {
    hide AllGrow, VisitAll, Lengthens, Streaming.RepeatsContent;
    if moments != [] {
      AllTreesLengthen(ts, moments[0], EMPTY);
      assert Messages(moments)[1..] == Messages(moments[1..]);
      TreesChain(moments[0], moments[1..]);
    }
  }

  /** A slot that is updated at any moments of a Gemma parse never fails, and the client ends with the last
      message, ids aside, unless reasoning goes on with just the content shown. */
  lemma TreesStream(moments: seq<seq<Tree>>, gen: nat -> string)
    requires moments != [] && Growing([], moments) && NeverRepeats(EMPTY, Messages(moments))
    ensures var d := Streaming.RunDiffs(Streaming.State(EMPTY, []), Messages(moments), gen);
      d.Ok? && SameButIds(Streaming.Replay(EMPTY, d.value), MessageOf(moments[|moments| - 1]))
  {
    hide Growing, NeverRepeats, Streaming.RunDiffs, Streaming.Replay, SameButIds, Chain;
    assert MessageOf([]) == EMPTY;
    TreesChain([], moments);
    ChainStreams(false, Messages(moments), gen);
  }
}
