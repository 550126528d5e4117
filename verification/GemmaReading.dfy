/** What is read off the trees of a Gemma parse: which nodes are shown and how, and what the arguments still
    lack while they are being parsed. */
module GemmaReading {
  import opened Wrappers
  import opened Json
  import opened JsonValues
  import opened Gemma
  import opened GemmaStream
  import opened Growth
  import Streaming

  // ---- the nodes that are shown ----

  predicate IsShown(t: Tree) {
    t.tag == Reasoning || t.tag == Content || t.tag == Tool
  }

  /** The outermost of them, in the order in which they are written. */
  function ShownNodes(ts: seq<Tree>): (r: seq<Tree>)
    ensures forall i :: 0 <= i < |r| ==> IsShown(r[i])
    decreases ts
  {
    if ts == [] then []
    else (if IsShown(ts[0]) then [ts[0]] else ShownNodes(ts[0].children)) + ShownNodes(ts[1..])
  }

  /** The texts of the nodes with a tag, one after another. */
  function TextOf(nodes: seq<Tree>, tag: Tag): string {
    if nodes == [] then ""
    else
      var last := nodes[|nodes| - 1];
      TextOf(nodes[..|nodes| - 1], tag) + if last.tag == tag then last.text else ""
  }

  /** All nodes down to a depth, in the order in which they are written. */
  function Preorder(ts: seq<Tree>, depth: nat): seq<Tree>
    decreases ts
  {
    if ts == [] then []
    else [ts[0]] + (if depth > 1 then Preorder(ts[0].children, depth - 1) else []) + Preorder(ts[1..], depth)
  }

  /** The first of the nodes that has a tag, if any has. */
  predicate IsFirst(nodes: seq<Tree>, tag: Tag, r: Option<Tree>) {
    match r
    case None => forall i :: 0 <= i < |nodes| ==> nodes[i].tag != tag
    case Some(t) => exists i :: 0 <= i < |nodes| && nodes[i] == t && t.tag == tag && forall j :: 0 <= j < i ==> nodes[j].tag != tag
  }

  lemma FirstOfTwo(a: seq<Tree>, b: seq<Tree>, tag: Tag, r: Option<Tree>, s: Option<Tree>)
    requires IsFirst(a, tag, r) && IsFirst(b, tag, s)
    ensures IsFirst(a + b, tag, if r.Some? then r else s)
  {
    var c := a + b;
    if r.Some? {
      var i :| 0 <= i < |a| && a[i] == r.value && r.value.tag == tag && forall j :: 0 <= j < i ==> a[j].tag != tag;
      assert c[i] == r.value && forall j :: 0 <= j < i ==> c[j] == a[j];
    } else if s.Some? {
      var i :| 0 <= i < |b| && b[i] == s.value && s.value.tag == tag && forall j :: 0 <= j < i ==> b[j].tag != tag;
      assert c[|a| + i] == s.value;
      forall j | 0 <= j < |a| + i ensures c[j].tag != tag {
        assert c[j] == if j < |a| then a[j] else b[j - |a|];
      }
    }
  }

  lemma OneNode(t: Tree, tag: Tag)
    ensures IsFirst([t], tag, if t.tag == tag then Some(t) else None) && IsFirst([], tag, None)
  {
    assert [t][0] == t;
  }

  /** A tag is looked for down to its depth, and the first node that has it is found. */
  lemma {:induction false} FindsFirst(ts: seq<Tree>, tag: Tag, depth: nat)
    ensures IsFirst(Preorder(ts, depth), tag, FindByTag(ts, tag, depth))
    decreases ts
  {
    hide IsFirst;
    if ts == [] {
      OneNode(Tree(OtherRule, NoTag, "", [], false), tag);
    } else {
      var t, below := ts[0], if depth > 1 then Preorder(ts[0].children, depth - 1) else [];
      var r := if depth > 1 then FindByTag(t.children, tag, depth - 1) else None;
      OneNode(t, tag);
      if depth > 1 {
        FindsFirst(t.children, tag, depth - 1);
      }
      FindsFirst(ts[1..], tag, depth);
      var first := if t.tag == tag then Some(t) else None;
      FirstOfTwo([t], below, tag, first, r);
      FirstOfTwo([t] + below, Preorder(ts[1..], depth), tag, if first.Some? then first else r, FindByTag(ts[1..], tag, depth));
    }
  }

  /** The call of a tool node, to a depth of three: none before its arguments have begun or its name is whole. */
  ghost predicate IsCallOf(t: Tree, r: Option<Call>) {
    exists name, args :: IsFirst(Preorder(t.children, 3), ToolName, name) && IsFirst(Preorder(t.children, 3), ToolArgs, args)
      && if name == None || args == None || name.value.isPartial then r == None
         else r == Some(Streaming.Call(name.value.text, if args.value.children == [] then "" else ToJson(args.value.children[0]), ""))
  }

  lemma CallFound(t: Tree)
    ensures IsCallOf(t, CallOf(t))
  {
    hide FindByTag, Preorder, IsFirst, ToJson;
    FindsFirst(t.children, ToolName, 3);
    FindsFirst(t.children, ToolArgs, 3);
  }

  /** The calls of the tool nodes that have one, in order. */
  ghost predicate CallsAre(nodes: seq<Tree>, calls: seq<Call>) {
    if nodes == [] then calls == []
    else
      var rest, t := nodes[..|nodes| - 1], nodes[|nodes| - 1];
      || ((t.tag != Tool || IsCallOf(t, None)) && CallsAre(rest, calls))
      || (t.tag == Tool && calls != [] && IsCallOf(t, Some(calls[|calls| - 1])) && CallsAre(rest, calls[..|calls| - 1]))
  }

  /** A walk over nodes that are shown. */
  function VisitEach(nodes: seq<Tree>, m: Message): Message {
    if nodes == [] then m
    else Visit(nodes[|nodes| - 1], VisitEach(nodes[..|nodes| - 1], m))
  }

  lemma {:induction false} VisitEachConcat(a: seq<Tree>, b: seq<Tree>, m: Message)
    ensures VisitEach(a + b, m) == VisitEach(b, VisitEach(a, m))
    decreases |b|
  {
    hide Visit;
    if b == [] {
      assert a + b == a;
    } else {
      assert (a + b)[..|a + b| - 1] == a + b[..|b| - 1];
      VisitEachConcat(a, b[..|b| - 1], m);
    }
  }

  /** A walk over trees is one over the nodes that are shown. */
  lemma {:induction false} WalkShown(ts: seq<Tree>, m: Message)
    ensures VisitAll(ts, m) == VisitEach(ShownNodes(ts), m)
    decreases ts
  {
    hide CallOf;
    if ts != [] {
      var t := ts[0];
      var nodes := if IsShown(t) then [t] else ShownNodes(t.children);
      VisitEachConcat(nodes, ShownNodes(ts[1..]), m);
      if IsShown(t) {
        assert [t][..0] == [];
        assert VisitEach([t], m) == Visit(t, VisitEach([], m));
      } else {
        WalkShown(t.children, m);
      }
      WalkShown(ts[1..], Visit(t, m));
    }
  }

  lemma {:induction false} EachShown(nodes: seq<Tree>)
    requires forall i :: 0 <= i < |nodes| ==> IsShown(nodes[i])
    ensures var m := VisitEach(nodes, EMPTY);
      m.content == TextOf(nodes, Content) && m.reasoning == TextOf(nodes, Reasoning) && CallsAre(nodes, m.calls)
  {
    hide CallOf, IsCallOf;
    if nodes != [] {
      var k := |nodes| - 1;
      var t, m := nodes[k], VisitEach(nodes[..k], EMPTY);
      EachShown(nodes[..k]);
      assert m.content + "" == m.content && m.reasoning + "" == m.reasoning;
      CallFound(t);
      if t.tag == Tool && CallOf(t).Some? {
        assert (m.calls + [CallOf(t).value])[..|m.calls|] == m.calls;
      }
    }
  }

  /** The message of a parse: the texts of its content and of its reasoning, and the calls of its tool nodes. */
  lemma MessageShown(ts: seq<Tree>)
    ensures var nodes, m := ShownNodes(ts), MessageOf(ts);
      m.content == TextOf(nodes, Content) && m.reasoning == TextOf(nodes, Reasoning) && CallsAre(nodes, m.calls)
  {
    hide CallsAre, TextOf, ShownNodes, VisitAll, VisitEach;
    WalkShown(ts, EMPTY);
    EachShown(ShownNodes(ts));
  }

  // ---- arguments that are still being parsed ----

  /** The tree as it would be if its last nodes were complete. */
  function Completed(t: Tree): Tree
    decreases t
  {
    t.(isPartial := false, children := CompletedLast(t.children))
  }

  function CompletedLast(ts: seq<Tree>): (r: seq<Tree>)
    ensures |r| == |ts|
    decreases ts
  {
    if ts == [] then [] else if |ts| == 1 then [Completed(ts[0])] else [ts[0]] + CompletedLast(ts[1..])
  }

  /** What is still to be closed, from the inside out. */
  function Closers(t: Tree): string
    decreases t
  {
    if t.text == "" then ""
    else
      match t.rule
      case String =>
        if t.children == [] then "" else OnlyCloser(t.children) + if t.isPartial then "\"" else ""
      case Array => LastCloser(t.children) + if t.isPartial then "]" else ""
      case Dict => LastCloser(t.children) + if t.isPartial then "}" else ""
      case DictKey => Escape(OnlyCloser(t.children)) + if t.isPartial then "\":" else ""
      case DictKv => LastCloser(t.children)
      case Value => OnlyCloser(t.children)
      case _ => ""
  }

  function LastCloser(ts: seq<Tree>): string
    decreases ts
  {
    if ts == [] then "" else if |ts| == 1 then Closers(ts[0]) else LastCloser(ts[1..])
  }

  function OnlyCloser(ts: seq<Tree>): string
    decreases ts
  {
    if |ts| == 1 then Closers(ts[0]) else ""
  }

  /** A node is complete only when its last child is. */
  predicate Nested(t: Tree) {
    t.children == [] || (Nested(Last(t.children)) && (Last(t.children).isPartial ==> t.isPartial))
  }

  function Last(ts: seq<Tree>): (t: Tree)
    requires ts != []
    ensures t in ts
  {
    ts[|ts| - 1]
  }

  lemma {:induction false} CompleteLacks(t: Tree)
    requires Nested(t) && !t.isPartial
    ensures Closers(t) == ""
    decreases t
  {
    assert Escape("") == "";
    if t.children != [] {
      CompleteLacks(Last(t.children));
      LastLacks(t.children);
    }
  }

  lemma {:induction false} LastLacks(ts: seq<Tree>)
    requires ts != [] && Closers(Last(ts)) == ""
    ensures LastCloser(ts) == "" && OnlyCloser(ts) == ""
    decreases ts
  {
    hide Closers;
    if |ts| > 1 {
      LastLacks(ts[1..]);
    }
  }

  lemma {:induction false} JoinedLacks(ts: seq<Tree>, comma: bool)
    requires ts != [] ==> Nested(Last(ts))
    ensures Joined(CompletedLast(ts), comma) == Joined(ts, comma) + LastCloser(ts)
    decreases ts
  {
    hide ToJson, Nested, Completed, Closers;
    if |ts| == 1 {
      ClosersLack(ts[0]);
      var sep, c := if comma then "," else "", Completed(ts[0]);
      assert [c][1..] == [] && ts[1..] == [];
      assert Joined([c], comma) == sep + ToJson(c) + "" && Joined(ts, comma) == sep + ToJson(ts[0]) + "";
      Regrouped(sep, ToJson(ts[0]), Closers(ts[0]));
    } else if ts != [] {
      JoinedLacks(ts[1..], true);
      assert CompletedLast(ts)[1..] == CompletedLast(ts[1..]);
      Grouped((if comma then "," else "") + ToJson(ts[0]), Joined(ts[1..], true), LastCloser(ts));
    }
  }

  lemma Regrouped(a: string, b: string, c: string)
    ensures a + (b + c) + "" == a + b + "" + c
  {
  }

  lemma {:induction false} ConcatenatedLacks(ts: seq<Tree>)
    requires ts != [] ==> Nested(Last(ts))
    ensures Concatenated(CompletedLast(ts)) == Concatenated(ts) + LastCloser(ts)
    decreases ts
  {
    hide ToJson, Nested, Completed, Closers;
    if |ts| == 1 {
      ClosersLack(ts[0]);
      OneConcatenated(ts[0]);
      OneConcatenated(Completed(ts[0]));
      assert ts == [ts[0]];
    } else if ts != [] {
      ConcatenatedLacks(ts[1..]);
      assert CompletedLast(ts)[1..] == CompletedLast(ts[1..]);
      Grouped(ToJson(ts[0]), Concatenated(ts[1..]), LastCloser(ts));
    }
  }

  lemma OneConcatenated(t: Tree)
    ensures Concatenated([t]) == ToJson(t)
  {
    hide ToJson;
    assert [t][1..] == [] && Concatenated([t]) == ToJson(t) + Concatenated([]);
  }

  lemma Grouped(a: string, b: string, c: string)
    ensures a + (b + c) == a + b + c
  {
  }

  lemma {:induction false} FirstLacks(ts: seq<Tree>)
    requires ts != [] && Nested(Last(ts))
    ensures ToJson(CompletedLast(ts)[0]) == ToJson(ts[0]) + OnlyCloser(ts)
    decreases ts
  {
    hide ToJson, Completed, Closers;
    if |ts| == 1 {
      ClosersLack(ts[0]);
    } else {
      assert ToJson(ts[0]) + "" == ToJson(ts[0]);
    }
  }

  lemma Bracketed(open: string, inner: string, lack: string, close: string)
    ensures open + (inner + lack) + close == (open + inner + "") + (lack + close)
    ensures open + (inner + "") + close == (open + inner + close) + ("" + "")
  {
  }

  /** While a tree is parsed, its text lacks nothing but what closes the nodes that are not complete. */
  lemma {:induction false} ClosersLack(t: Tree)
    requires Nested(t)
    ensures ToJson(Completed(t)) == ToJson(t) + Closers(t)
    decreases t
  {
    hide Nested, Joined, Concatenated, LastCloser, OnlyCloser, CompletedLast;
    var ts, us := t.children, CompletedLast(t.children);
    if t.text != "" && ts != [] {
      ChildrenNested(t);
      ChildrenComplete(t);
      match t.rule
      case String =>
        FirstLacks(ts);
        Bracketed("\"", ToJson(ts[0]), OnlyCloser(ts), "\"");
      case Array =>
        JoinedLacks(ts, false);
        Bracketed("[", Joined(ts, false), LastCloser(ts), "]");
      case Dict =>
        JoinedLacks(ts, false);
        Bracketed("{", Joined(ts, false), LastCloser(ts), "}");
      case DictKey =>
        FirstLacks(ts);
        EscapeConcat(ToJson(ts[0]), OnlyCloser(ts));
        Bracketed("\"", Escape(ToJson(ts[0])), Escape(OnlyCloser(ts)), "\":");
      case DictKv => ConcatenatedLacks(ts);
      case Value => FirstLacks(ts);
      case _ =>
    } else if t.text != "" {
      Childless(t);
    }
  }

  lemma ChildrenNested(t: Tree)
    requires Nested(t) && t.children != []
    ensures Nested(Last(t.children)) && (Last(t.children).isPartial ==> t.isPartial)
  {
  }

  lemma ChildrenComplete(t: Tree)
    requires Nested(t) && t.children != []
    ensures !t.isPartial ==> LastCloser(t.children) == "" && OnlyCloser(t.children) == "" && Escape(OnlyCloser(t.children)) == ""
  {
    hide LastCloser, OnlyCloser, Closers;
    assert Escape("") == "";
    if !t.isPartial {
      CompleteLacks(Last(t.children));
      LastLacks(t.children);
    }
  }

  lemma Childless(t: Tree)
    requires t.text != "" && t.children == []
    ensures ToJson(Completed(t)) == ToJson(t) + Closers(t)
  {
    assert Escape("") == "";
  }

  /** So what is shown of the arguments is read back, once closed, as the value of the tree if it were complete. */
  lemma ClosedReadsBack(t: Tree, v: JsonValue)
    requires Nested(t) && Denotes(Completed(t), v) && Readable(v)
    ensures ReadValue(ToJson(t) + Closers(t)) == Some((v, ""))
  {
    hide Denotes, Readable, ReadValue, ToJson, Closers;
    ClosersLack(t);
    CompleteReadsBack(Completed(t), v);
  }
}
