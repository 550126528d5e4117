/** From the events of a parse that goes on and on to the deltas a client receives: no message built from
    a part of the events takes back what an earlier part showed. */
module ChatStream {
  import opened Wrappers
  import opened Json
  import opened Mapper
  import opened MapperRuns
  import opened Growth
  import Streaming

  // ---- what a parse shows ----

  /** The message a parse ends with when the mapper is in a given state. */
  function MessageOf(st: State): Streaming.Message
    requires st.Valid()
  {
    var end := Finish(st);
    Streaming.Message(end.content, end.reasoning, end.calls)
  }

  /** The calls before the one that is being built. */
  function Prior(st: State): seq<Call>
    requires st.Valid()
  {
    if st.cursor == Last then st.calls[..|st.calls| - 1] else st.calls
  }

  predicate Building(st: State) {
    st.Valid() && st.HasTool() && InCall(st, Prior(st))
  }

  predicate Tidy(st: State) {
    st.Valid() && (st.HasTool() ==> Building(st))
  }

  /** Events in the order in which a grammar yields them: a name and ids for a call that is open, values after
      the name of an argument, nothing for a call that was discarded; perhaps reasoning first, before all content. */
  predicate Orderly(first: bool, st: State, node: Node)
    requires st.Valid()
  {
    if node.tag == Reasoning then first ==> st.content == ""
    else if node.tag in {Content, ToolOpen, ArgOpen, OtherTag} then true
    else st.cursor != Gone && (st.HasTool() ==> OrderlyTool(st, node))
  }

  predicate OrderlyTool(st: State, node: Node)
    requires st.Valid() && st.HasTool()
  {
    if node.tag == ToolName then st.cursor == Pending && TrimTrailing(node.text) != ""
    else if node.tag == ToolId then st.cursor == Pending || Unquoted(TrimTrailing(node.text)) != ""
    else if node.tag == ToolArgs then st.cursor == Pending || !IsObject(node.text) || Target(st) <= TrimTrailing(node.text)
    else node.tag == ArgName || node.tag == ToolClose || Target(st) != ""
  }

  /** Arguments that come in one piece. */
  predicate IsObject(text: string) {
    var args := TrimTrailing(text);
    args != "" && args[0] == '{'
  }

  predicate OrderlyRun(first: bool, st: State, nodes: seq<Node>)
    requires st.Valid()
    decreases |nodes|
  {
    nodes == [] || (Orderly(first, st, nodes[0]) && OrderlyRun(first, Step(st, nodes[0]), nodes[1..]))
  }

  // ---- growth ----

  /** A nameless pending call shows nothing. */
  lemma Shows(st: State)
    requires Tidy(st)
    ensures MessageOf(st).content == st.content && MessageOf(st).calls == st.calls
    ensures MessageOf(st).reasoning == if OnlyWhitespace(st.reasoning) then "" else st.reasoning
  {
  }

  lemma ReasoningGrows(r: string, more: string)
    ensures (if OnlyWhitespace(r) then "" else r) <= if OnlyWhitespace(r + more) then "" else r + more
  {
    if !OnlyWhitespace(r) {
      var i :| 0 <= i < |r| && r[i] !in {' ', '\n', '\r', '\t'};
      assert (r + more)[i] == r[i];
    }
  }

  /** An event of the call that is being built. */
  lemma {:induction false} CallEvent(first: bool, st: State, node: Node)
    requires Building(st) && Orderly(first, st, node) && node.tag !in {Reasoning, Content, ToolOpen, OtherTag}
    ensures Tidy(Step(st, node)) && Streaming.CallsExtend(st.calls, Step(st, node).calls)
    ensures Step(st, node).reasoning == st.reasoning && Step(st, node).content == st.content
  {
    hide Streaming.CallsExtend, Step, InCall, TrimTrailing, Unquoted, Target, IsObject;
    match node.tag
    case ToolName => NameGrows(st, node);
    case ToolClose => CloseGrows(st, node);
    case ToolId => IdGrows(st, node);
    case ToolArgs => ArgsGrow(st, node);
    case _ => ArgEventGrows(st, node);
  }

  lemma NameGrows(st: State, node: Node)
    requires Building(st) && node.tag == ToolName && st.cursor == Pending && TrimTrailing(node.text) != ""
    ensures Tidy(Step(st, node)) && Streaming.CallsExtend(st.calls, Step(st, node).calls)
    ensures Step(st, node).reasoning == st.reasoning && Step(st, node).content == st.content
  {
    hide TrimTrailing, Streaming.CallsExtend;
    var calls, st' := Prior(st), Step(st, node);
    NameEvent(st, calls, node);
    SamePrior(st', calls);
    OneMore(st.calls, st'.calls[|st.calls|]);
    assert st'.calls == st.calls + [st'.calls[|st.calls|]];
  }

  lemma ArgEventGrows(st: State, node: Node)
    requires Building(st) && IsArgEvent(node) && (node.tag == ArgName || node.tag == ArgOpen || Target(st) != "")
    ensures Tidy(Step(st, node)) && Streaming.CallsExtend(st.calls, Step(st, node).calls)
    ensures Step(st, node).reasoning == st.reasoning && Step(st, node).content == st.content
  {
    hide Step, Streaming.CallsExtend, InCall, Target, Current;
    var calls, st' := Prior(st), Step(st, node);
    ArgEvent(st, calls, node);
    SamePrior(st', calls);
    ArgGrows(st, st', calls);
    StepTexts(st, node);
  }

  lemma StepTexts(st: State, node: Node)
    requires st.Valid() && node.tag !in {Reasoning, Content}
    ensures Step(st, node).reasoning == st.reasoning && Step(st, node).content == st.content
  {
    hide BraceDepth, Braces, TrimTrailing, ValueText, Entry, Unquoted;
  }

  lemma SamePrior(st: State, calls: seq<Call>)
    requires InCall(st, calls)
    ensures Prior(st) == calls && Building(st)
  {
  }

  lemma ArgGrows(st: State, st': State, calls: seq<Call>)
    requires InCall(st, calls) && InCall(st', calls) && st'.cursor == st.cursor
    requires Current(st').name == Current(st).name && Current(st').id == Current(st).id && Target(st) <= Target(st')
    ensures Streaming.CallsExtend(st.calls, st'.calls)
  {
    hide Streaming.CallsExtend;
    if st.cursor == Last {
      NamedGrows(calls, st.calls, st'.calls);
    } else {
      SameCalls(calls);
    }
  }

  lemma CloseGrows(st: State, node: Node)
    requires Building(st) && node.tag == ToolClose
    ensures Tidy(Step(st, node)) && Streaming.CallsExtend(st.calls, Step(st, node).calls)
    ensures Step(st, node).reasoning == st.reasoning && Step(st, node).content == st.content
  {
    hide BraceDepth, Braces, Streaming.CallsExtend;
    SameCalls(st.calls);
    if st.cursor == Last {
      NamedGrows(Prior(st), st.calls, Step(st, node).calls);
    }
  }

  lemma IdGrows(st: State, node: Node)
    requires Building(st) && node.tag == ToolId && (st.cursor == Pending || Unquoted(TrimTrailing(node.text)) != "")
    ensures Tidy(Step(st, node)) && Streaming.CallsExtend(st.calls, Step(st, node).calls)
    ensures Step(st, node).reasoning == st.reasoning && Step(st, node).content == st.content
  {
    hide Streaming.CallsExtend, TrimTrailing, Unquoted;
    SameCalls(st.calls);
    if st.cursor == Last {
      NamedGrows(Prior(st), st.calls, Step(st, node).calls);
    }
  }

  lemma ArgsGrow(st: State, node: Node)
    requires Building(st) && node.tag == ToolArgs && (st.cursor == Pending || !IsObject(node.text) || Target(st) <= TrimTrailing(node.text))
    ensures Tidy(Step(st, node)) && Streaming.CallsExtend(st.calls, Step(st, node).calls)
    ensures Step(st, node).reasoning == st.reasoning && Step(st, node).content == st.content
  {
    hide Streaming.CallsExtend, TrimTrailing;
    SameCalls(st.calls);
    if st.cursor == Last {
      NamedGrows(Prior(st), st.calls, Step(st, node).calls);
    }
  }

  /** Texts grow by appending, reasoning only before the content. */
  lemma TextsGrow(first: bool, st: State, st': State, r: string, c: string)
    requires Tidy(st) && Tidy(st') && Streaming.CallsExtend(st.calls, st'.calls)
    requires st'.reasoning == st.reasoning + r && st'.content == st.content + c && (first ==> r != "" ==> st.content == "")
    ensures Lengthens(first, MessageOf(st), MessageOf(st'))
  {
    hide Streaming.CallsExtend, OnlyWhitespace, MessageOf, Tidy;
    Shows(st);
    Shows(st');
    ReasoningGrows(st.reasoning, r);
    assert r == "" ==> st'.reasoning == st.reasoning;
  }

  /** One event takes nothing back. */
  lemma {:induction false} EventGrows(first: bool, st: State, node: Node)
    requires Tidy(st) && Orderly(first, st, node)
    ensures Tidy(Step(st, node)) && Lengthens(first, MessageOf(st), MessageOf(Step(st, node)))
  {
    hide Streaming.CallsExtend, Lengthens, Building, MessageOf, Current, Target, Step;
    var st' := Step(st, node);
    if st.HasTool() && node.tag !in {Reasoning, Content, ToolOpen, OtherTag} {
      CallEvent(first, st, node);
      assert st.reasoning + "" == st.reasoning && st.content + "" == st.content;
      TextsGrow(first, st, st', "", "");
    } else {
      OutsideCall(st, node);
      SameCalls(st.calls);
      TextsGrow(first, st, st', if node.tag == Reasoning then node.text else "", if node.tag == Content then node.text else "");
    }
  }

  lemma OutsideCall(st: State, node: Node)
    requires Tidy(st) && (!st.HasTool() || node.tag in {Reasoning, Content, ToolOpen, OtherTag})
    ensures Tidy(Step(st, node)) && Step(st, node).calls == st.calls
    ensures Step(st, node).reasoning == st.reasoning + if node.tag == Reasoning then node.text else ""
    ensures Step(st, node).content == st.content + if node.tag == Content then node.text else ""
  {
  }

  // ---- two moments of one parse ----

  lemma {:induction false} RunGrows(first: bool, st: State, nodes: seq<Node>)
    requires Tidy(st) && OrderlyRun(first, st, nodes)
    ensures Tidy(Run(st, nodes)) && Lengthens(first, MessageOf(st), MessageOf(Run(st, nodes)))
    decreases |nodes|
  {
    hide Building, Orderly, Step, MessageOf, Lengthens;
    GrowsSelf(first, MessageOf(st));
    if nodes != [] {
      EventGrows(first, st, nodes[0]);
      RunGrows(first, Step(st, nodes[0]), nodes[1..]);
      GrowsTwice(first, MessageOf(st), MessageOf(Step(st, nodes[0])), MessageOf(Run(st, nodes)));
    }
  }

  lemma {:induction false} OrderlyParts(first: bool, st: State, nodes: seq<Node>, k: nat)
    requires st.Valid() && OrderlyRun(first, st, nodes) && k <= |nodes|
    ensures OrderlyRun(first, st, nodes[..k]) && OrderlyRun(first, Run(st, nodes[..k]), nodes[k..])
    ensures k < |nodes| ==> Orderly(first, Run(st, nodes[..k]), nodes[k])
    decreases k
  {
    hide Orderly, Step;
    if k > 0 {
      OrderlyParts(first, Step(st, nodes[0]), nodes[1..], k - 1);
      assert nodes[..k][0] == nodes[0] && nodes[..k][1..] == nodes[1..][..k - 1] && nodes[1..][k - 1..] == nodes[k..];
    } else {
      assert nodes[..0] == [] && nodes[0..] == nodes;
    }
  }

  /** The parse may have stopped in the middle of a text, of a name, of a string value, or of arguments
      that come in one piece. Ids and names of arguments are taken whole. */
  predicate MayBeCut(st: State, node: Node)
    requires st.Valid()
  {
    node.tag in {Reasoning, Content, ToolName} ||
    (node.tag == ArgStringValue && (st.HasTool() ==> !st.closing)) ||
    (node.tag == ToolArgs && (st.HasTool() ==> st.cursor == Pending || Target(st) == "{"))
  }

  lemma {:induction false} TrimPrefix(v: string, text: string)
    requires v <= text
    ensures TrimTrailing(v) <= TrimTrailing(text)
    decreases |text|
  {
    if v != text {
      if text != "" && IsSpace(text[|text| - 1]) {
        TrimPrefix(v, text[..|text| - 1]);
      } else {
        TrimShorter(v);
      }
    }
  }

  lemma {:induction false} TrimShorter(v: string)
    ensures TrimTrailing(v) <= v
  {
    if v != "" && IsSpace(v[|v| - 1]) {
      TrimShorter(v[..|v| - 1]);
    }
  }

  /** What a cut event shows lies between what was shown before it and what it shows when cut later. */
  lemma {:induction false} CutGrows(first: bool, st: State, node: Node, v: string, w: string)
    requires Tidy(st) && Orderly(first, st, node) && MayBeCut(st, node) && v <= w <= node.text
    ensures Lengthens(first, MessageOf(st), MessageOf(Step(st, node.(text := v))))
    ensures Lengthens(first, MessageOf(Step(st, node.(text := v))), MessageOf(Step(st, node.(text := w))))
  {
    hide MessageOf, Building, Target, TrimTrailing, Step, IsObject;
    if !st.HasTool() || node.tag in {Reasoning, Content} {
      TextCut(first, st, node, v, w);
    } else if node.tag == ToolName {
      NameCut(first, st, node, v, w);
    } else {
      ToolCut(first, st, node, v, w);
    }
  }

  lemma TextCut(first: bool, st: State, node: Node, v: string, w: string)
    requires Tidy(st) && (!st.HasTool() || node.tag in {Reasoning, Content}) && v <= w && node.tag != ToolOpen
    requires first ==> node.tag == Reasoning ==> st.content == ""
    ensures Lengthens(first, MessageOf(st), MessageOf(Step(st, node.(text := v))))
    ensures Lengthens(first, MessageOf(Step(st, node.(text := v))), MessageOf(Step(st, node.(text := w))))
  {
    hide Streaming.CallsExtend, Lengthens, MessageOf, Building, Step;
    var cut, later := Step(st, node.(text := v)), Step(st, node.(text := w));
    OutsideCall(st, node.(text := v));
    OutsideCall(st, node.(text := w));
    SameCalls(st.calls);
    var isReasoning, isContent := node.tag == Reasoning, node.tag == Content;
    TextsGrow(first, st, cut, if isReasoning then v else "", if isContent then v else "");
    var more := w[|v|..];
    assert st.reasoning + w == st.reasoning + v + more && st.content + w == st.content + v + more;
    assert cut.reasoning + "" == cut.reasoning && cut.content + "" == cut.content;
    assert st.content + "" == st.content;
    TextsGrow(first, cut, later, if isReasoning then more else "", if isContent then more else "");
  }

  lemma NameCut(first: bool, st: State, node: Node, v: string, w: string)
    requires Building(st) && st.cursor == Pending && node.tag == ToolName && v <= w
    ensures Lengthens(first, MessageOf(st), MessageOf(Step(st, node.(text := v))))
    ensures Lengthens(first, MessageOf(Step(st, node.(text := v))), MessageOf(Step(st, node.(text := w))))
  {
    hide TrimTrailing, OnlyWhitespace;
    TrimPrefix(v, w);
  }

  /** A value, or arguments in one piece. */
  lemma ToolCut(first: bool, st: State, node: Node, v: string, w: string)
    requires Building(st) && Orderly(first, st, node) && MayBeCut(st, node) && node.tag in {ArgStringValue, ToolArgs} && v <= w
    ensures Lengthens(first, MessageOf(st), MessageOf(Step(st, node.(text := v))))
    ensures Lengthens(first, MessageOf(Step(st, node.(text := v))), MessageOf(Step(st, node.(text := w))))
  {
    hide Streaming.CallsExtend, OnlyWhitespace, InCall, MessageOf, Target, TrimTrailing, IsObject, Step;
    var cut, later := node.(text := v), node.(text := w);
    if node.tag == ToolArgs {
      ObjectStarts(v);
      ObjectStarts(w);
      ArgsCut(st, node, v, w);
    } else {
      ValueCut(first, st, node, v, w);
    }
    EventGrows(first, st, cut);
    CallEvent(first, st, cut);
    CallEvent(first, st, later);
    Shows(Step(st, cut));
    Shows(Step(st, later));
  }

  lemma ObjectStarts(text: string)
    ensures IsObject(text) ==> "{" <= TrimTrailing(text)
  {
    hide TrimTrailing;
  }

  lemma ArgsCut(st: State, node: Node, v: string, w: string)
    requires Building(st) && node.tag == ToolArgs && v <= w && (st.cursor == Pending || Target(st) == "{")
    ensures Streaming.CallsExtend(Step(st, node.(text := v)).calls, Step(st, node.(text := w)).calls)
  {
    hide Streaming.CallsExtend, TrimTrailing;
    TrimPrefix(v, w);
    SameCalls(st.calls);
    if st.cursor == Last {
      NamedGrows(Prior(st), Step(st, node.(text := v)).calls, Step(st, node.(text := w)).calls);
    }
  }

  lemma ValueCut(first: bool, st: State, node: Node, v: string, w: string)
    requires Building(st) && Orderly(first, st, node) && node.tag == ArgStringValue && !st.closing && v <= w
    ensures Streaming.CallsExtend(Step(st, node.(text := v)).calls, Step(st, node.(text := w)).calls)
  {
    hide ValueText, Entry, Streaming.CallsExtend, Step, InCall, Current, Target;
    var calls, cut, later := Prior(st), node.(text := v), node.(text := w);
    ArgEvent(st, calls, cut);
    ArgEvent(st, calls, later);
    ValueTextGrows(v, w);
    assert ViewOf(Step(st, cut)).text == Target(st) + ValueText(v, true, false).0;
    assert ViewOf(Step(st, later)).text == Target(st) + ValueText(w, true, false).0;
    ArgGrows(Step(st, cut), Step(st, later), calls);
  }

  lemma ValueTextGrows(v: string, text: string)
    requires v <= text
    ensures ValueText(v, true, false).0 <= ValueText(text, true, false).0
  {
    hide TrimValue, Escape;
    ValuePrefix(v, text);
    EscapePrefix(TrimValue(v), TrimValue(text));
  }

  /** A moment of a parse: some whole events, and perhaps the first part of the next one. */
  datatype Moment = Moment(whole: nat, part: Option<string>)

  predicate Reached(nodes: seq<Node>, m: Moment) {
    m.whole <= |nodes| &&
    (m.part.Some? ==>
      m.whole < |nodes| && m.part.value <= nodes[m.whole].text &&
      MayBeCut(Run(START, nodes[..m.whole]), nodes[m.whole]))
  }

  predicate Before(m: Moment, n: Moment) {
    m.whole < n.whole ||
    (m.whole == n.whole && (m.part.Some? ==> n.part.Some? && m.part.value <= n.part.value))
  }

  /** Every parse starts anew on the text so far. */
  function Shown(nodes: seq<Node>, m: Moment): Streaming.Message
    requires Reached(nodes, m)
  {
    var st := Run(START, nodes[..m.whole]);
    match m.part
    case None => MessageOf(st)
    case Some(v) => MessageOf(Step(st, nodes[m.whole].(text := v)))
  }

  /** The run so far is in order, and so is the next event. */
  lemma PartOfRun(first: bool, nodes: seq<Node>, k: nat)
    requires OrderlyRun(first, START, nodes) && k <= |nodes|
    ensures Tidy(Run(START, nodes[..k]))
    ensures k < |nodes| ==>
      Orderly(first, Run(START, nodes[..k]), nodes[k]) && Run(START, nodes[..k + 1]) == Step(Run(START, nodes[..k]), nodes[k])
  {
    hide Orderly, Step, MessageOf, Lengthens, OrderlyRun, Run;
    OrderlyParts(first, START, nodes, k);
    RunGrows(first, START, nodes[..k]);
    if k < |nodes| {
      assert nodes[..k + 1] == nodes[..k] + [nodes[k]];
      RunConcat(START, nodes[..k], [nodes[k]]);
      RunOne(Run(START, nodes[..k]), nodes[k]);
    }
  }

  lemma WholeGrows(first: bool, nodes: seq<Node>, j: nat, k: nat)
    requires OrderlyRun(first, START, nodes) && j <= k <= |nodes|
    ensures Lengthens(first, MessageOf(Run(START, nodes[..j])), MessageOf(Run(START, nodes[..k])))
  {
    hide Orderly, Step, MessageOf, Lengthens, OrderlyRun, Run;
    var run := nodes[..k];
    OrderlyParts(first, START, nodes, k);
    OrderlyParts(first, START, run, j);
    assert run[..j] == nodes[..j] && run == run[..j] + run[j..];
    PartOfRun(first, nodes, j);
    RunGrows(first, Run(START, run[..j]), run[j..]);
    RunConcat(START, run[..j], run[j..]);
  }

  /** At a moment at least as much is shown as after its whole events, and no more than after the next. */
  lemma PartGrows(first: bool, nodes: seq<Node>, m: Moment)
    requires OrderlyRun(first, START, nodes) && Reached(nodes, m)
    ensures Lengthens(first, MessageOf(Run(START, nodes[..m.whole])), Shown(nodes, m))
    ensures m.part.Some? ==> Lengthens(first, Shown(nodes, m), MessageOf(Run(START, nodes[..m.whole + 1])))
  {
    hide Orderly, Step, MessageOf, Lengthens, OrderlyRun, Run, MayBeCut;
    PartOfRun(first, nodes, m.whole);
    match m.part
    case None => GrowsSelf(first, Shown(nodes, m));
    case Some(v) =>
      var node := nodes[m.whole];
      CutGrows(first, Run(START, nodes[..m.whole]), node, v, node.text);
      assert node.(text := node.text) == node;
  }

  /** What is shown at one moment of a parse is never taken back at a later one. */
  lemma ShownGrows(first: bool, nodes: seq<Node>, m: Moment, n: Moment)
    requires OrderlyRun(first, START, nodes) && Reached(nodes, m) && Reached(nodes, n) && Before(m, n)
    ensures Lengthens(first, Shown(nodes, m), Shown(nodes, n))
  {
    hide Orderly, Step, MessageOf, Lengthens, OrderlyRun, Run, MayBeCut;
    if m.whole == n.whole && m.part.Some? {
      PartOfRun(first, nodes, m.whole);
      CutGrows(first, Run(START, nodes[..m.whole]), nodes[m.whole], m.part.value, n.part.value);
    } else {
      PartGrows(first, nodes, m);
      PartGrows(first, nodes, n);
      var j := if m.part.Some? then m.whole + 1 else m.whole;
      WholeGrows(first, nodes, j, n.whole);
      GrowsTwice(first, MessageOf(Run(START, nodes[..j])), MessageOf(Run(START, nodes[..n.whole])), Shown(nodes, n));
      if m.part.Some? {
        GrowsTwice(first, Shown(nodes, m), MessageOf(Run(START, nodes[..j])), Shown(nodes, n));
      }
    }
  }

  /** Between any two moments of a parse the deltas can be computed. They give the later message except
      exactly when nothing was added but reasoning that goes on with just the content shown, which cannot be
      when reasoning comes first. */
  lemma ShownReplays(first: bool, nodes: seq<Node>, m: Moment, n: Moment)
    requires OrderlyRun(first, START, nodes) && Reached(nodes, m) && Reached(nodes, n) && Before(m, n)
    ensures var d := Streaming.Diffs(Shown(nodes, m), Shown(nodes, n));
      d.Ok? &&
      (Streaming.Replay(Shown(nodes, m), d.value) == Shown(nodes, n) <==>
       !Streaming.RepeatsContent(Shown(nodes, m), Shown(nodes, n)))
    ensures first ==> !Streaming.RepeatsContent(Shown(nodes, m), Shown(nodes, n))
  {
    hide Shown, Reached, Before, OrderlyRun, Streaming.Diffs, Streaming.Replay, Lengthens, Streaming.Extends;
    ShownGrows(first, nodes, m, n);
    LengthensExtends(first, Shown(nodes, m), Shown(nodes, n));
    Streaming.ReplayExactly(Shown(nodes, m), Shown(nodes, n));
  }

  // ---- a slot that follows a parse ----

  predicate Ascending(nodes: seq<Node>, m: Moment, ms: seq<Moment>)
    decreases |ms|
  {
    ms == [] || (Reached(nodes, ms[0]) && Before(m, ms[0]) && Ascending(nodes, ms[0], ms[1..]))
  }

  function AllShown(nodes: seq<Node>, m: Moment, ms: seq<Moment>): seq<Streaming.Message>
    requires Ascending(nodes, m, ms)
    decreases |ms|
  {
    if ms == [] then [] else [Shown(nodes, ms[0])] + AllShown(nodes, ms[0], ms[1..])
  }

  /** Between no two moments reasoning goes on with just the content shown. */
  predicate NeverRepeats(nodes: seq<Node>, m: Moment, ms: seq<Moment>)
    requires Reached(nodes, m) && Ascending(nodes, m, ms)
    decreases |ms|
  {
    ms == [] || (!Streaming.RepeatsContent(Shown(nodes, m), Shown(nodes, ms[0])) && NeverRepeats(nodes, ms[0], ms[1..]))
  }

  lemma {:induction false} FirstNeverRepeats(nodes: seq<Node>, m: Moment, ms: seq<Moment>)
    requires OrderlyRun(true, START, nodes) && Reached(nodes, m) && Ascending(nodes, m, ms)
    ensures NeverRepeats(nodes, m, ms)
    decreases |ms|
  {
    hide OrderlyRun, Reached, Before, Shown, Streaming.RepeatsContent, Streaming.Diffs, Streaming.Replay;
    if ms != [] {
      ShownReplays(true, nodes, m, ms[0]);
      FirstNeverRepeats(nodes, ms[0], ms[1..]);
    }
  }

  lemma {:induction false} ShownChain(first: bool, nodes: seq<Node>, m: Moment, ms: seq<Moment>)
    requires OrderlyRun(first, START, nodes) && Reached(nodes, m) && Ascending(nodes, m, ms) && NeverRepeats(nodes, m, ms)
    ensures Chain(first, Shown(nodes, m), AllShown(nodes, m, ms)) && |AllShown(nodes, m, ms)| == |ms|
    ensures ms != [] ==> Reached(nodes, ms[|ms| - 1]) && AllShown(nodes, m, ms)[|ms| - 1] == Shown(nodes, ms[|ms| - 1])
    decreases |ms|
  {
    hide OrderlyRun, Reached, Before, Shown, Lengthens, Streaming.RepeatsContent;
    if ms != [] {
      ShownGrows(first, nodes, m, ms[0]);
      ShownChain(first, nodes, ms[0], ms[1..]);
      assert AllShown(nodes, m, ms)[1..] == AllShown(nodes, ms[0], ms[1..]);
    }
  }

  const FIRST := Moment(0, None)

  /** A slot that is updated at any moments of a parse never fails, unless reasoning goes on with just the
      content shown; a client that applies the deltas holds what is shown at the last of these moments, with
      the ids that were given once and for all. */
  lemma SlotStreams(first: bool, nodes: seq<Node>, ms: seq<Moment>, gen: nat -> string)
    requires OrderlyRun(first, START, nodes) && ms != [] && Ascending(nodes, FIRST, ms)
    requires first || NeverRepeats(nodes, FIRST, ms)
    ensures var s := Streaming.State(Streaming.Message("", "", []), []);
      var d := Streaming.RunDiffs(s, AllShown(nodes, FIRST, ms), gen);
      d.Ok? && Reached(nodes, ms[|ms| - 1]) &&
      SameButIds(Streaming.Replay(s.message, d.value), Shown(nodes, ms[|ms| - 1]))
  {
    hide OrderlyRun, SameButIds, Streaming.RunDiffs, Streaming.Replay, AllShown, Ascending, NeverRepeats, Chain, Shown;
    StartsEmpty(nodes);
    if first {
      FirstNeverRepeats(nodes, FIRST, ms);
    }
    ShownChain(first, nodes, FIRST, ms);
    ChainStreams(first, AllShown(nodes, FIRST, ms), gen);
  }

  lemma StartsEmpty(nodes: seq<Node>)
    ensures Reached(nodes, FIRST) && Shown(nodes, FIRST) == Streaming.Message("", "", [])
  {
    assert nodes[..0] == [];
  }

  // ---- the runs that grammars yield ----

  /** A piece of an answer: reasoning, content, a call by its arguments with the name after p of their events,
      or a call whose arguments come in one piece. */
  datatype Piece =
    | Thought(text: string)
    | Said(text: string)
    | Called(opening: string, args: seq<Arg>, p: nat, name: string, closing: string)
    | CalledWith(opening: string, name: string, id: string, arguments: string, closing: string)

  predicate WellFormed(piece: Piece) {
    (piece.Called? ==> piece.p <= |AllEvents(piece.args)| && TrimTrailing(piece.name) != "") &&
    (piece.CalledWith? ==> TrimTrailing(piece.name) != "" && Unquoted(TrimTrailing(piece.id)) != "")
  }

  function PieceEvents(piece: Piece): seq<Node>
    requires WellFormed(piece)
  {
    match piece
    case Thought(text) => [Node(Reasoning, text)]
    case Said(text) => [Node(Content, text)]
    case Called(opening, args, p, name, closing) =>
      CallEvents(opening, AllEvents(args), p, Node(ToolName, name)) + [Node(ToolClose, closing)]
    case CalledWith(opening, name, id, arguments, closing) =>
      [Node(ToolOpen, opening), Node(ToolName, name), Node(ToolId, id), Node(ToolArgs, arguments), Node(ToolClose, closing)]
  }

  /** With reasoning first, none comes after content. */
  predicate Answer(first: bool, begun: bool, pieces: seq<Piece>): (r: bool)
    ensures r ==> forall i :: 0 <= i < |pieces| ==> WellFormed(pieces[i])
    decreases |pieces|
  {
    pieces == [] ||
    (WellFormed(pieces[0]) && (pieces[0].Thought? ==> !(first && begun)) && Answer(first, begun || pieces[0].Said?, pieces[1..]))
  }

  function AnswerEvents(pieces: seq<Piece>): seq<Node>
    requires forall i :: 0 <= i < |pieces| ==> WellFormed(pieces[i])
  {
    if pieces == [] then [] else PieceEvents(pieces[0]) + AnswerEvents(pieces[1..])
  }

  lemma {:induction false} OrderlyConcat(first: bool, st: State, a: seq<Node>, b: seq<Node>)
    requires st.Valid() && OrderlyRun(first, st, a) && OrderlyRun(first, Run(st, a), b)
    ensures OrderlyRun(first, st, a + b)
    decreases |a|
  {
    hide Orderly, Step;
    if a == [] {
      assert a + b == b;
    } else {
      assert (a + b)[0] == a[0] && (a + b)[1..] == a[1..] + b;
      OrderlyConcat(first, Step(st, a[0]), a[1..], b);
    }
  }

  lemma OrderlyCons(first: bool, st: State, node: Node, rest: seq<Node>)
    requires st.Valid()
    ensures OrderlyRun(first, st, [node] + rest) <==> Orderly(first, st, node) && OrderlyRun(first, Step(st, node), rest)
  {
    hide Orderly, Step;
    assert ([node] + rest)[1..] == rest;
  }

  lemma ArgOrderly(first: bool, st: State, calls: seq<Call>, node: Node)
    requires InCall(st, calls) && IsArgEvent(node) && (node.tag == ArgName || node.tag == ArgOpen || Target(st) != "")
    ensures Orderly(first, st, node)
  {
  }

  lemma CloseOrderly(first: bool, st: State, calls: seq<Call>, closing: string)
    requires InCall(st, calls)
    ensures OrderlyRun(first, st, [Node(ToolClose, closing)])
  {
    hide Step;
    OrderlyCons(first, st, Node(ToolClose, closing), []);
  }

  lemma {:induction false} ArgsOrderly(first: bool, st: State, calls: seq<Call>, nodes: seq<Node>, closing: string)
    requires InCall(st, calls) && Ordered(Target(st) != "", nodes)
    ensures OrderlyRun(first, st, nodes + [Node(ToolClose, closing)])
    decreases |nodes|
  {
    hide Step, Target, InCall, ViewOf, ViewStep, Current, Orderly, OrderlyRun;
    var close := [Node(ToolClose, closing)];
    InCallHasTool(st, calls);
    if nodes == [] {
      assert nodes + close == close;
      CloseOrderly(first, st, calls, closing);
    } else {
      ArgEvent(st, calls, nodes[0]);
      ArgOrderly(first, st, calls, nodes[0]);
      OrderedMore(nodes[0].tag == ArgName || Target(st) != "", Target(Step(st, nodes[0])) != "", nodes[1..]);
      ArgsOrderly(first, Step(st, nodes[0]), calls, nodes[1..], closing);
      OrderlyCons(first, st, nodes[0], nodes[1..] + close);
      assert nodes + close == [nodes[0]] + (nodes[1..] + close);
    }
  }

  lemma NameOrderly(first: bool, st: State, calls: seq<Call>, name: Node)
    requires InCall(st, calls) && st.cursor == Pending && name.tag == ToolName && TrimTrailing(name.text) != ""
    ensures Orderly(first, st, name)
  {
  }

  lemma {:induction false} NamedOrderly(first: bool, st: State, calls: seq<Call>, nodes: seq<Node>, p: nat, name: Node, closing: string)
    requires InCall(st, calls) && st.cursor == Pending && Ordered(Target(st) != "", nodes) && p <= |nodes|
    requires name.tag == ToolName && TrimTrailing(name.text) != ""
    ensures OrderlyRun(first, st, Inserted(nodes, p, name) + [Node(ToolClose, closing)])
    decreases p
  {
    hide Step, Target, InCall, ViewOf, ViewStep, Current, TrimTrailing, Inserted, Orderly, OrderlyRun;
    var close := [Node(ToolClose, closing)];
    InCallHasTool(st, calls);
    InsertedTail(nodes, p, name);
    if p == 0 {
      NameEvent(st, calls, name);
      NameOrderly(first, st, calls, name);
      OrderedMore(Target(st) != "", Target(Step(st, name)) != "", nodes);
      ArgsOrderly(first, Step(st, name), calls, nodes, closing);
      OrderlyCons(first, st, name, nodes + close);
      assert [name] + nodes + close == [name] + (nodes + close);
    } else {
      ArgEvent(st, calls, nodes[0]);
      ArgOrderly(first, st, calls, nodes[0]);
      var rest := Inserted(nodes[1..], p - 1, name);
      OrderedMore(nodes[0].tag == ArgName || Target(st) != "", Target(Step(st, nodes[0])) != "", nodes[1..]);
      NamedOrderly(first, Step(st, nodes[0]), calls, nodes[1..], p - 1, name, closing);
      OrderlyCons(first, st, nodes[0], rest + close);
      assert [nodes[0]] + rest + close == [nodes[0]] + (rest + close);
    }
  }

  lemma OpenOrderly(first: bool, st: State, opening: string)
    requires st.Valid()
    ensures Orderly(first, st, Node(ToolOpen, opening))
  {
  }

  lemma CalledOrderly(first: bool, st: State, piece: Piece)
    requires st.Valid() && WellFormed(piece) && piece.Called?
    ensures OrderlyRun(first, st, PieceEvents(piece))
  {
    hide Step, InCall, Current, TrimTrailing, Inserted, AllEvents, Orderly, OrderlyRun, Target;
    var events, name := AllEvents(piece.args), Node(ToolName, piece.name);
    EventsOrdered(false, piece.args, []);
    assert events + [] == events;
    OpenEvent(st, piece.opening);
    OpenOrderly(first, st, piece.opening);
    var open, rest := Node(ToolOpen, piece.opening), Inserted(events, piece.p, name) + [Node(ToolClose, piece.closing)];
    NamedOrderly(first, Step(st, open), st.calls, events, piece.p, name, piece.closing);
    OrderlyCons(first, st, open, rest);
    assert PieceEvents(piece) == [open] + rest;
  }

  lemma IdOrderly(first: bool, st: State, calls: seq<Call>, node: Node)
    requires InCall(st, calls) && node.tag == ToolId && Unquoted(TrimTrailing(node.text)) != ""
    ensures Orderly(first, st, node) && InCall(Step(st, node), calls)
    ensures Step(st, node).HasTool() && ViewOf(Step(st, node)) == ViewOf(st) && Step(st, node).cursor == st.cursor
  {
    hide TrimTrailing, Unquoted;
  }

  lemma WholeOrderly(first: bool, st: State, calls: seq<Call>, node: Node)
    requires InCall(st, calls) && st.cursor == Last && node.tag == ToolArgs && ViewOf(st).text == "{"
    ensures Orderly(first, st, node) && InCall(Step(st, node), calls)
  {
    hide TrimTrailing;
  }

  lemma CalledWithOrderly(first: bool, st: State, piece: Piece)
    requires st.Valid() && WellFormed(piece) && piece.CalledWith?
    ensures OrderlyRun(first, st, PieceEvents(piece))
  {
    hide Step, InCall, Current, TrimTrailing, Orderly, OrderlyRun, Target, Unquoted;
    var e := PieceEvents(piece);
    var begun := Step(st, e[0]);
    OpenEvent(st, piece.opening);
    OpenOrderly(first, st, piece.opening);
    NameEvent(begun, st.calls, e[1]);
    NameOrderly(first, begun, st.calls, e[1]);
    var named := Step(begun, e[1]);
    IdOrderly(first, named, st.calls, e[2]);
    var withId := Step(named, e[2]);
    WholeOrderly(first, withId, st.calls, e[3]);
    CloseOrderly(first, Step(withId, e[3]), st.calls, piece.closing);
    OrderlyCons(first, withId, e[3], [e[4]]);
    OrderlyCons(first, named, e[2], [e[3]] + [e[4]]);
    OrderlyCons(first, begun, e[1], [e[2]] + ([e[3]] + [e[4]]));
    OrderlyCons(first, st, e[0], [e[1]] + ([e[2]] + ([e[3]] + [e[4]])));
    assert e == [e[0]] + ([e[1]] + ([e[2]] + ([e[3]] + [e[4]])));
  }

  lemma PieceOrderly(first: bool, st: State, piece: Piece)
    requires st.Valid() && WellFormed(piece) && (piece.Thought? ==> first ==> st.content == "")
    ensures OrderlyRun(first, st, PieceEvents(piece))
  {
    hide Step, CallEvents, AllEvents, TrimTrailing, Unquoted;
    if piece.Called? {
      CalledOrderly(first, st, piece);
    } else if piece.CalledWith? {
      CalledWithOrderly(first, st, piece);
    } else {
      OrderlyCons(first, st, PieceEvents(piece)[0], []);
      assert PieceEvents(piece) == [PieceEvents(piece)[0]] + [];
    }
  }

  lemma {:induction false} ContentKept(st: State, nodes: seq<Node>)
    requires st.Valid() && forall i :: 0 <= i < |nodes| ==> nodes[i].tag != Content
    ensures Run(st, nodes).content == st.content
    decreases |nodes|
  {
    hide Step;
    if nodes != [] {
      StepContent(st, nodes[0]);
      ContentKept(Step(st, nodes[0]), nodes[1..]);
    }
  }

  lemma StepContent(st: State, node: Node)
    requires st.Valid() && node.tag != Content
    ensures Step(st, node).content == st.content
  {
    hide BraceDepth, Braces, TrimTrailing, ValueText, Entry, Unquoted;
  }

  lemma {:induction false} EventsSayNothing(args: seq<Arg>)
    ensures forall i :: 0 <= i < |AllEvents(args)| ==> AllEvents(args)[i].tag != Content
    decreases |args|
  {
    if args != [] {
      EventsSayNothing(args[1..]);
    }
  }

  lemma PieceSaysNothing(piece: Piece)
    requires WellFormed(piece) && !piece.Said?
    ensures forall i :: 0 <= i < |PieceEvents(piece)| ==> PieceEvents(piece)[i].tag != Content
  {
    hide AllEvents, TrimTrailing, Unquoted;
    if piece.Called? {
      EventsSayNothing(piece.args);
    }
  }

  /** Every answer, with any calls, comes as events in order. */
  lemma {:induction false} AnswerOrderly(first: bool, st: State, begun: bool, pieces: seq<Piece>)
    requires st.Valid() && Answer(first, begun, pieces) && (!begun ==> st.content == "")
    ensures OrderlyRun(first, st, AnswerEvents(pieces))
    decreases |pieces|
  {
    hide Step, WellFormed, PieceEvents, OrderlyRun, Run;
    if pieces == [] {
      assert OrderlyRun(first, st, []) by { NoEvents(first, st); }
    } else {
      var piece := pieces[0];
      var begun', events := begun || piece.Said?, PieceEvents(piece);
      PieceOrderly(first, st, piece);
      if !piece.Said? {
        PieceSaysNothing(piece);
        ContentKept(st, events);
      }
      AnswerOrderly(first, Run(st, events), begun', pieces[1..]);
      OrderlyConcat(first, st, events, AnswerEvents(pieces[1..]));
    }
  }

  lemma NoEvents(first: bool, st: State)
    requires st.Valid()
    ensures OrderlyRun(first, st, [])
  {
  }

  /** The mapper never touches a discarded call in such a run. */
  lemma {:induction false} OrderlyAllowed(first: bool, st: State, nodes: seq<Node>)
    requires st.Valid() && OrderlyRun(first, st, nodes)
    ensures AllowedRun(st, nodes)
    decreases |nodes|
  {
    hide Step, OrderlyTool;
    if nodes != [] {
      OrderlyAllowed(first, Step(st, nodes[0]), nodes[1..]);
    }
  }

  /** So a slot can follow the parse of any answer with its reasoning first, and of any other unless reasoning
      goes on with just the content shown. */
  lemma AnswerStreams(first: bool, pieces: seq<Piece>, ms: seq<Moment>, gen: nat -> string)
    requires Answer(first, false, pieces) && ms != []
    requires var nodes := AnswerEvents(pieces);
      Ascending(nodes, FIRST, ms) && (first || NeverRepeats(nodes, FIRST, ms))
    ensures var nodes := AnswerEvents(pieces);
      var s := Streaming.State(Streaming.Message("", "", []), []);
      var d := Streaming.RunDiffs(s, AllShown(nodes, FIRST, ms), gen);
      AllowedRun(START, nodes) && d.Ok? && Reached(nodes, ms[|ms| - 1]) &&
      SameButIds(Streaming.Replay(s.message, d.value), Shown(nodes, ms[|ms| - 1]))
  {
    hide Answer, AnswerEvents, OrderlyRun, AllowedRun, Ascending, AllShown, Shown, Reached, SameButIds, NeverRepeats, WellFormed;
    AnswerOrderly(first, START, false, pieces);
    OrderlyAllowed(first, START, AnswerEvents(pieces));
    SlotStreams(first, AnswerEvents(pieces), ms, gen);
  }
}
