/** What a whole tool call prints, wherever its name arrives, and what is visible on the way. */
module MapperRuns {
  import opened Wrappers
  import opened Json
  import opened JsonValues
  import opened Mapper
  import Quotes
  import Streaming

  // ---- a call under construction ----

  /** calls were there before; the call being built is still nameless, or is the one after them. */
  predicate InCall(st: State, calls: seq<Call>) {
    st.Valid() &&
    match st.cursor
    case Pending => st.calls == calls && st.pending.value.name == "" && st.pending.value.arguments == ""
    case Last => |st.calls| == |calls| + 1 && st.calls[..|calls|] == calls && Current(st).name != "" && st.buffer == ""
    case _ => false
  }

  /** The arguments so far, as they will be once the call has a name. */
  datatype View = View(text: string, count: nat, closing: bool)

  function ViewOf(st: State): View
    requires st.Valid() && st.HasTool()
  {
    View(if Target(st) == "" then "{" else Target(st), st.argCount, st.closing)
  }

  predicate IsArgEvent(node: Node) {
    node.tag in {ArgOpen, ArgName, ArgValue, ArgStringValue, ArgClose}
  }

  function ViewStep(v: View, node: Node): View {
    if node.tag == ArgOpen then v.(closing := false)
    else if node.tag == ArgName then v.(text := v.text + Entry(v.count, node.text), count := v.count + 1)
    else if node.tag == ArgClose then if v.closing then v.(text := v.text + "\"", closing := false) else v
    else
      var (text, closing) := ValueText(node.text, node.tag == ArgStringValue, v.closing);
      v.(text := v.text + text, closing := closing)
  }

  function ViewRun(v: View, nodes: seq<Node>): View
    decreases |nodes|
  {
    if nodes == [] then v else ViewRun(ViewStep(v, nodes[0]), nodes[1..])
  }

  /** No value comes before the name of an argument. */
  predicate Ordered(begun: bool, nodes: seq<Node>)
    decreases |nodes|
  {
    nodes == [] ||
    (IsArgEvent(nodes[0]) && (nodes[0].tag == ArgName || nodes[0].tag == ArgOpen || begun) &&
     Ordered(begun || nodes[0].tag == ArgName, nodes[1..]))
  }

  lemma {:induction false} TargetSet(st: State, calls: seq<Call>, s: string)
    requires InCall(st, calls)
    ensures var st' := WithTarget(st, s);
      InCall(st', calls) && st'.cursor == st.cursor && Target(st') == s &&
      st'.argCount == st.argCount && st'.closing == st.closing &&
      Current(st').name == Current(st).name && Current(st').id == Current(st).id
  {
  }

  /** An argument event does the same to a named and to a nameless call. */
  lemma {:induction false} ArgEvent(st: State, calls: seq<Call>, node: Node)
    requires InCall(st, calls) && IsArgEvent(node)
    requires node.tag == ArgName || node.tag == ArgOpen || Target(st) != ""
    ensures var st' := Step(st, node);
      InCall(st', calls) && st'.cursor == st.cursor && ViewOf(st') == ViewStep(ViewOf(st), node) &&
      Current(st').name == Current(st).name && Current(st').id == Current(st).id &&
      (node.tag == ArgName || Target(st) != "" ==> Target(st') != "") && Target(st) <= Target(st')
  {
    hide WithTarget, ValueText, Entry, InCall, Target, Current;
    InCallHasTool(st, calls);
    if node.tag == ArgOpen {
      CountersKeep(st, calls, st.argCount, false);
    } else {
      var s := if node.tag == ArgName then (if Target(st) == "" then "{" else Target(st)) + Entry(st.argCount, node.text)
               else if node.tag == ArgClose then Target(st) + "\""
               else Target(st) + ValueText(node.text, node.tag == ArgStringValue, st.closing).0;
      TargetSet(st, calls, s);
      CountersKeep(WithTarget(st, s), calls, ViewStep(ViewOf(st), node).count, ViewStep(ViewOf(st), node).closing);
    }
  }

  /** The counters are no part of the call. */
  lemma {:induction false} CountersKeep(st: State, calls: seq<Call>, argCount: nat, closing: bool)
    requires InCall(st, calls)
    ensures var st' := st.(argCount := argCount, closing := closing);
      InCall(st', calls) && st'.cursor == st.cursor && Target(st') == Target(st) && Current(st') == Current(st)
  {
  }

  /** The name turns a nameless call into a named one that shows the same arguments. */
  lemma NameEvent(st: State, calls: seq<Call>, node: Node)
    requires InCall(st, calls) && st.cursor == Pending && node.tag == ToolName && TrimTrailing(node.text) != ""
    ensures var st' := Step(st, node);
      InCall(st', calls) && st'.cursor == Last && ViewOf(st') == ViewOf(st) &&
      Current(st').name == TrimTrailing(node.text) && Current(st').id == Current(st).id &&
      Target(st) <= Target(st') && Target(st') != ""
  {
    hide TrimTrailing;
  }

  lemma {:induction false} ArgEvents(st: State, calls: seq<Call>, nodes: seq<Node>)
    requires InCall(st, calls) && Ordered(Target(st) != "", nodes)
    ensures var st' := Run(st, nodes);
      InCall(st', calls) && st'.cursor == st.cursor && ViewOf(st') == ViewRun(ViewOf(st), nodes) &&
      Current(st').name == Current(st).name && Current(st').id == Current(st).id && Target(st) <= Target(st')
    decreases |nodes|
  {
    hide Step, Target, InCall, ViewOf, ViewStep, Current;
    if nodes != [] {
      assert InCall(st, calls) ==> st.Valid() && st.HasTool() by { InCallHasTool(st, calls); }
      ArgEvent(st, calls, nodes[0]);
      OrderedMore(nodes[0].tag == ArgName || Target(st) != "", Target(Step(st, nodes[0])) != "", nodes[1..]);
      ArgEvents(Step(st, nodes[0]), calls, nodes[1..]);
    }
  }

  lemma InCallHasTool(st: State, calls: seq<Call>)
    requires InCall(st, calls)
    ensures st.Valid() && st.HasTool()
  {
  }

  lemma {:induction false} OrderedMore(begun: bool, begun': bool, nodes: seq<Node>)
    requires Ordered(begun, nodes) && (begun ==> begun')
    ensures Ordered(begun', nodes)
    decreases |nodes|
  {
    if nodes != [] {
      OrderedMore(begun || nodes[0].tag == ArgName, begun' || nodes[0].tag == ArgName, nodes[1..]);
    }
  }

  /** The events with one more at position p. */
  function Inserted(nodes: seq<Node>, p: nat, node: Node): seq<Node>
    requires p <= |nodes|
  {
    nodes[..p] + [node] + nodes[p..]
  }

  lemma InsertedTail(nodes: seq<Node>, p: nat, node: Node)
    requires p <= |nodes|
    ensures p == 0 ==> Inserted(nodes, p, node) == [node] + nodes
    ensures p > 0 ==> Inserted(nodes, p, node) == [nodes[0]] + Inserted(nodes[1..], p - 1, node)
  {
  }

  /** Wherever the name comes among the argument events, the call ends up the same. */
  lemma {:induction false} NameAnywhere(st: State, calls: seq<Call>, nodes: seq<Node>, p: nat, name: Node)
    requires InCall(st, calls) && st.cursor == Pending && Ordered(Target(st) != "", nodes) && p <= |nodes|
    requires name.tag == ToolName && TrimTrailing(name.text) != ""
    ensures var st' := Run(st, Inserted(nodes, p, name));
      InCall(st', calls) && st'.cursor == Last && ViewOf(st') == ViewRun(ViewOf(st), nodes) &&
      Current(st').name == TrimTrailing(name.text) && Current(st').id == Current(st).id && Target(st') != ""
    decreases p
  {
    hide Step, Target, InCall, ViewOf, ViewStep, Current, TrimTrailing, Inserted;
    InCallHasTool(st, calls);
    InsertedTail(nodes, p, name);
    if p == 0 {
      NameEvent(st, calls, name);
      assert ([name] + nodes)[1..] == nodes;
      OrderedMore(Target(st) != "", Target(Step(st, name)) != "", nodes);
      ArgEvents(Step(st, name), calls, nodes);
    } else {
      ArgEvent(st, calls, nodes[0]);
      var rest := Inserted(nodes[1..], p - 1, name);
      assert ([nodes[0]] + rest)[1..] == rest;
      OrderedMore(nodes[0].tag == ArgName || Target(st) != "", Target(Step(st, nodes[0])) != "", nodes[1..]);
      NameAnywhere(Step(st, nodes[0]), calls, nodes[1..], p - 1, name);
    }
  }

  // ---- what a list of arguments prints ----

  datatype Arg = Arg(opening: string, name: string, value: string, isString: bool, closing: string)

  function Begun(a: Arg): seq<Node> {
    [Node(ArgOpen, a.opening), Node(ArgName, a.name)]
  }

  function Events(a: Arg): seq<Node> {
    Begun(a) + [Node(if a.isString then ArgStringValue else ArgValue, a.value), Node(ArgClose, a.closing)]
  }

  function AllEvents(args: seq<Arg>): seq<Node> {
    if args == [] then [] else Events(args[0]) + AllEvents(args[1..])
  }

  function Printed(a: Arg): string {
    if a.isString then Dump(TrimValue(a.value)) else RawText(a.value)
  }

  /** Members of an object, the first of them number count. */
  function Members(args: seq<Arg>, count: nat): string {
    if args == [] then ""
    else Entry(count, args[0].name) + Printed(args[0]) + Members(args[1..], count + 1)
  }

  function Object(args: seq<Arg>): string {
    "{" + Members(args, 0) + "}"
  }

  lemma {:induction false} ViewRunConcat(v: View, a: seq<Node>, b: seq<Node>)
    ensures ViewRun(v, a + b) == ViewRun(ViewRun(v, a), b)
    decreases |a|
  {
    hide ViewStep;
    if a == [] {
      assert a + b == b;
    } else {
      assert (a + b)[1..] == a[1..] + b;
      ViewRunConcat(ViewStep(v, a[0]), a[1..], b);
    }
  }

  lemma ViewTwo(v: View, x: Node, y: Node)
    ensures ViewRun(v, [x, y]) == ViewStep(ViewStep(v, x), y)
  {
    hide ViewStep;
    assert [x, y][1..] == [y] && [y][1..] == [];
    assert ViewRun(ViewStep(v, x), [y]) == ViewRun(ViewStep(ViewStep(v, x), y), []);
  }

  lemma BegunView(v: View, a: Arg)
    ensures ViewRun(v, Begun(a)) == View(v.text + Entry(v.count, a.name), v.count + 1, false)
  {
    hide Entry;
    ViewTwo(v, Node(ArgOpen, a.opening), Node(ArgName, a.name));
  }

  lemma EventsView(v: View, a: Arg)
    ensures ViewRun(v, Events(a)) == View(v.text + (Entry(v.count, a.name) + Printed(a)), v.count + 1, false)
  {
    hide Entry, TrimValue, RawText, Escape;
    var w := View(v.text + Entry(v.count, a.name), v.count + 1, false);
    var x, y := Node(if a.isString then ArgStringValue else ArgValue, a.value), Node(ArgClose, a.closing);
    ViewRunConcat(v, Begun(a), [x, y]);
    BegunView(v, a);
    ViewTwo(w, x, y);
    var s := TrimValue(a.value);
    assert Escape("") == "" by { EscapeNothing(); }
    assert w.text + RawText(a.value) == v.text + (Entry(v.count, a.name) + RawText(a.value));
    assert w.text + ("\"" + Escape(s)) + "\"" == v.text + (Entry(v.count, a.name) + Dump(s));
    assert w.text + "\"" + "\"" == w.text + ("\"" + "" + "\"");
  }

  lemma EscapeNothing()
    ensures Escape("") == ""
  {
  }

  lemma {:induction false} AllEventsView(v: View, args: seq<Arg>)
    requires !v.closing
    ensures ViewRun(v, AllEvents(args)) == View(v.text + Members(args, v.count), v.count + |args|, false)
    decreases |args|
  {
    hide Entry, Events, Printed;
    if args == [] {
      assert v.text + "" == v.text;
    } else {
      ViewRunConcat(v, Events(args[0]), AllEvents(args[1..]));
      EventsView(v, args[0]);
      var head := Entry(v.count, args[0].name) + Printed(args[0]);
      AllEventsView(View(v.text + head, v.count + 1, false), args[1..]);
      assert v.text + head + Members(args[1..], v.count + 1) == v.text + (head + Members(args[1..], v.count + 1));
    }
  }

  lemma {:induction false} EventsOrdered(begun: bool, args: seq<Arg>, more: seq<Node>)
    requires Ordered(begun, more) && Ordered(true, more)
    ensures Ordered(begun, AllEvents(args) + more)
    decreases |args|
  {
    hide Ordered;
    if args == [] {
      assert AllEvents(args) + more == more;
    } else {
      var rest, e := AllEvents(args[1..]) + more, Events(args[0]);
      EventsOrdered(true, args[1..], more);
      OrderedCons(true, e[3], rest);
      OrderedCons(true, e[2], [e[3]] + rest);
      OrderedCons(begun, e[1], [e[2]] + ([e[3]] + rest));
      OrderedCons(begun, e[0], [e[1]] + ([e[2]] + ([e[3]] + rest)));
      assert AllEvents(args) + more == [e[0]] + ([e[1]] + ([e[2]] + ([e[3]] + rest)));
    }
  }

  lemma OrderedCons(begun: bool, node: Node, rest: seq<Node>)
    ensures Ordered(begun, [node] + rest) <==>
      IsArgEvent(node) && (node.tag == ArgName || node.tag == ArgOpen || begun) &&
      Ordered(begun || node.tag == ArgName, rest)
  {
    assert ([node] + rest)[1..] == rest;
  }

  // ---- braces ----

  lemma {:induction false} ScanShift(x: Scan, k: int, s: string)
    ensures ScanFrom(x.(depth := x.depth + k), s) == ScanFrom(x, s).(depth := ScanFrom(x, s).depth + k)
  {
    if s != "" {
      ScanShift(x, k, s[..|s| - 1]);
    }
  }

  /** A value that leaves no string and no brace open. Strings always do. */
  predicate Balanced(a: Arg) {
    a.isString || ScanFrom(OUTSIDE, RawText(a.value)) == OUTSIDE
  }

  lemma ScanEntry(d: int, count: nat, name: string)
    ensures ScanFrom(Scan(d, false, false), Entry(count, name)) == Scan(d, false, false)
  {
    hide ScanFrom, Dump, TrimName;
    var x, comma := Scan(d, false, false), if count > 0 then "," else "";
    ScanConcat(x, comma + Dump(TrimName(name)), ":");
    ScanConcat(x, comma, Dump(TrimName(name)));
    ScanNothing(x);
    ScanOne(x, ',');
    ScanDump(d, TrimName(name));
    ScanOne(x, ':');
  }

  lemma {:induction false} ScanMembers(d: int, args: seq<Arg>, count: nat)
    requires forall i :: 0 <= i < |args| ==> Balanced(args[i])
    ensures ScanFrom(Scan(d, false, false), Members(args, count)) == Scan(d, false, false)
    decreases |args|
  {
    hide ScanFrom, Entry, Dump, RawText, TrimValue;
    var x := Scan(d, false, false);
    if args == [] {
      ScanNothing(x);
    } else {
      var a := args[0];
      ScanConcat(x, Entry(count, a.name) + Printed(a), Members(args[1..], count + 1));
      ScanConcat(x, Entry(count, a.name), Printed(a));
      ScanEntry(d, count, a.name);
      if a.isString {
        ScanDump(d, TrimValue(a.value));
      } else {
        ScanShift(OUTSIDE, d, RawText(a.value));
      }
      ScanMembers(d, args[1..], count + 1);
    }
  }

  /** Without the closing brace one brace is open, with it none. */
  lemma ObjectDepth(args: seq<Arg>)
    requires forall i :: 0 <= i < |args| ==> Balanced(args[i])
    ensures BraceDepth("{" + Members(args, 0)) == 1 && BraceDepth(Object(args)) == 0
  {
    hide ScanFrom, Members, Balanced;
    ScanConcat(OUTSIDE, "{", Members(args, 0));
    ScanOne(OUTSIDE, '{');
    ScanMembers(1, args, 0);
    ScanConcat(OUTSIDE, "{" + Members(args, 0), "}");
    ScanOne(Scan(1, false, false), '}');
  }

  // ---- whole calls ----

  /** The events of a call whose name comes after p argument events. */
  function CallEvents(opening: string, nodes: seq<Node>, p: nat, name: Node): seq<Node>
    requires p <= |nodes|
  {
    [Node(ToolOpen, opening)] + Inserted(nodes, p, name)
  }

  lemma {:induction false} RunConcat(st: State, a: seq<Node>, b: seq<Node>)
    requires st.Valid()
    ensures Run(st, a + b) == Run(Run(st, a), b)
    decreases |a|
  {
    hide Step;
    if a == [] {
      assert a + b == b;
    } else {
      assert (a + b)[1..] == a[1..] + b;
      RunConcat(Step(st, a[0]), a[1..], b);
    }
  }

  lemma OpenEvent(st: State, opening: string)
    requires st.Valid()
    ensures var st' := Step(st, Node(ToolOpen, opening));
      InCall(st', st.calls) && st'.cursor == Pending && Target(st') == "" && Current(st').id == "" &&
      ViewOf(st') == View("{", 0, false)
  {
  }

  /** The call before it is closed. */
  lemma OpenCall(st: State, opening: string, nodes: seq<Node>, p: nat, name: Node)
    requires st.Valid() && p <= |nodes| && Ordered(false, nodes)
    requires name.tag == ToolName && TrimTrailing(name.text) != ""
    ensures var st' := Run(st, CallEvents(opening, nodes, p, name));
      InCall(st', st.calls) && st'.cursor == Last && ViewOf(st') == ViewRun(View("{", 0, false), nodes) &&
      Current(st').name == TrimTrailing(name.text) && Current(st').id == "" && Target(st') == ViewOf(st').text
  {
    hide Step, InCall, Current, TrimTrailing, Inserted, Target;
    OpenEvent(st, opening);
    var events := Inserted(nodes, p, name);
    var open := Node(ToolOpen, opening);
    assert ([open] + events)[1..] == events;
    NameAnywhere(Step(st, open), st.calls, nodes, p, name);
  }

  lemma CloseEvent(st: State, calls: seq<Call>, closing: string)
    requires InCall(st, calls) && st.cursor == Last && !st.closing && Target(st) != "" && BraceDepth(Target(st)) == 1
    ensures var st' := Step(st, Node(ToolClose, closing));
      st'.calls == calls + [Streaming.Call(Current(st).name, Target(st) + "}", Current(st).id)] &&
      st'.cursor == Last && !st'.closing
  {
    hide BraceDepth;
    assert Target(st) == Current(st).arguments && Target(st) + "" == Target(st);
    assert Braces(1) == Braces(0) + "}" == "}";
    assert st.calls == calls + [Current(st)];
  }

  /** However the name and the arguments interleave, the finished call prints the arguments in order
      as one JSON object, and no brace is left open. */
  lemma CallPrinted(st: State, opening: string, args: seq<Arg>, p: nat, name: Node, closing: string)
    requires st.Valid() && p <= |AllEvents(args)| && forall i :: 0 <= i < |args| ==> Balanced(args[i])
    requires name.tag == ToolName && TrimTrailing(name.text) != ""
    ensures var nodes := CallEvents(opening, AllEvents(args), p, name) + [Node(ToolClose, closing)];
      Run(st, nodes).calls == st.calls + [Streaming.Call(TrimTrailing(name.text), Object(args), "")]
    ensures BraceDepth(Object(args)) == 0
  {
    hide Step, InCall, Current, TrimTrailing, Inserted, Balanced, CallEvents, AllEvents, BraceDepth, Members;
    var events := AllEvents(args);
    EventsOrdered(false, args, []);
    assert events + [] == events;
    OpenCall(st, opening, events, p, name);
    var before := Run(st, CallEvents(opening, events, p, name));
    RunConcat(st, CallEvents(opening, events, p, name), [Node(ToolClose, closing)]);
    RunOne(before, Node(ToolClose, closing));
    AllEventsView(View("{", 0, false), args);
    ObjectDepth(args);
    InCallHasTool(before, st.calls);
    CloseEvent(before, st.calls, closing);
  }

  lemma RunOne(st: State, node: Node)
    requires st.Valid()
    ensures Run(st, [node]) == Step(st, node)
  {
    hide Step;
    assert [node][1..] == [];
    assert Run(st, [node]) == Run(Step(st, node), []);
  }

  // ---- reading the arguments back ----

  /** What an argument stands for; a value that is no string by its text. */
  function Meant(a: Arg): Member {
    Member(TrimName(a.name), if a.isString then Str(TrimValue(a.value)) else Raw(RawText(a.value)))
  }

  function AllMeant(args: seq<Arg>): (members: seq<Member>)
    ensures |members| == |args| && forall i :: 0 <= i < |args| ==> members[i] == Meant(args[i])
  {
    if args == [] then [] else [Meant(args[0])] + AllMeant(args[1..])
  }

  lemma {:induction false} MembersPrinted(args: seq<Arg>, count: nat)
    ensures Members(args, count) == PrintMembers(AllMeant(args), count > 0)
    decreases |args|
  {
    hide Dump, TrimName, TrimValue, RawText;
    if args != [] {
      MembersPrinted(args[1..], count + 1);
      var comma, k, v := if count > 0 then "," else "", Dump(TrimName(args[0].name)), Printed(args[0]);
      assert AllMeant(args)[1..] == AllMeant(args[1..]);
      assert PrintMember(Meant(args[0])) == k + ":" + v by { MemberPrinted(args[0]); }
      assert comma + k + ":" + v == comma + (k + ":" + v);
    }
  }

  lemma MemberPrinted(a: Arg)
    ensures PrintMember(Meant(a)) == Dump(TrimName(a.name)) + ":" + Printed(a)
  {
  }

  /** The printed call is read back as the arguments were meant: strings are, whatever they hold, and so are
      all values that are one token. */
  lemma ObjectReadsBack(args: seq<Arg>, end: string)
    requires forall i :: 0 <= i < |args| ==> args[i].isString || Readable(Raw(RawText(args[i].value)))
    ensures ReadValue(Object(args) + end) == Some((Obj(AllMeant(args)), end))
  {
    hide ReadValue, Members, PrintMembers, RawText;
    MembersPrinted(args, 0);
    ReadsBack(Obj(AllMeant(args)), end);
  }

  // ---- what is visible on the way ----

  /** The arguments of the call after the given ones, as a client sees them. */
  function Visible(st: State, calls: seq<Call>): string {
    if |st.calls| > |calls| then st.calls[|calls|].arguments else ""
  }

  /** No event takes back what was visible. */
  predicate Monotone(st: State, calls: seq<Call>, nodes: seq<Node>)
    requires st.Valid()
    decreases |nodes|
  {
    nodes == [] ||
    (Visible(st, calls) <= Visible(Step(st, nodes[0]), calls) && Monotone(Step(st, nodes[0]), calls, nodes[1..]))
  }

  lemma VisibleTarget(st: State, calls: seq<Call>)
    requires InCall(st, calls)
    ensures Visible(st, calls) == if st.cursor == Last then Target(st) else ""
  {
  }

  lemma CloseKeeps(st: State, calls: seq<Call>, closing: string)
    requires InCall(st, calls) && st.cursor == Last
    ensures Monotone(st, calls, [Node(ToolClose, closing)])
  {
    hide BraceDepth, Braces;
    var node := Node(ToolClose, closing);
    VisibleTarget(st, calls);
    assert Visible(st, calls) <= Visible(Step(st, node), calls);
    assert [node][1..] == [];
    assert Monotone(Step(st, node), calls, []);
  }

  lemma {:induction false} ArgsKeep(st: State, calls: seq<Call>, nodes: seq<Node>, closing: string)
    requires InCall(st, calls) && st.cursor == Last && Ordered(Target(st) != "", nodes)
    ensures Monotone(st, calls, nodes + [Node(ToolClose, closing)])
    decreases |nodes|
  {
    hide Step, Target, InCall, ViewOf, ViewStep, Current, Visible;
    var close := [Node(ToolClose, closing)];
    if nodes == [] {
      assert nodes + close == close;
      CloseKeeps(st, calls, closing);
    } else {
      InCallHasTool(st, calls);
      ArgEvent(st, calls, nodes[0]);
      VisibleTarget(st, calls);
      VisibleTarget(Step(st, nodes[0]), calls);
      OrderedMore(nodes[0].tag == ArgName || Target(st) != "", Target(Step(st, nodes[0])) != "", nodes[1..]);
      ArgsKeep(Step(st, nodes[0]), calls, nodes[1..], closing);
      assert (nodes + close)[1..] == nodes[1..] + close;
    }
  }

  lemma {:induction false} NamedKeeps(st: State, calls: seq<Call>, nodes: seq<Node>, p: nat, name: Node, closing: string)
    requires InCall(st, calls) && st.cursor == Pending && Ordered(Target(st) != "", nodes) && p <= |nodes|
    requires name.tag == ToolName && TrimTrailing(name.text) != ""
    ensures Monotone(st, calls, Inserted(nodes, p, name) + [Node(ToolClose, closing)])
    decreases p
  {
    hide Step, Target, InCall, ViewOf, ViewStep, Current, TrimTrailing, Inserted, Visible;
    var close := [Node(ToolClose, closing)];
    InCallHasTool(st, calls);
    InsertedTail(nodes, p, name);
    VisibleTarget(st, calls);
    if p == 0 {
      NameEvent(st, calls, name);
      OrderedMore(Target(st) != "", Target(Step(st, name)) != "", nodes);
      ArgsKeep(Step(st, name), calls, nodes, closing);
      assert ([name] + nodes + close)[1..] == nodes + close;
    } else {
      ArgEvent(st, calls, nodes[0]);
      var rest := Inserted(nodes[1..], p - 1, name);
      OrderedMore(nodes[0].tag == ArgName || Target(st) != "", Target(Step(st, nodes[0])) != "", nodes[1..]);
      NamedKeeps(Step(st, nodes[0]), calls, nodes[1..], p - 1, name, closing);
      assert ([nodes[0]] + rest + close)[1..] == rest + close;
    }
  }

  lemma {:induction false} MonotonePrefix(st: State, calls: seq<Call>, nodes: seq<Node>, k: nat)
    requires st.Valid() && Monotone(st, calls, nodes) && k <= |nodes|
    ensures Visible(Run(st, nodes[..k]), calls) <= Visible(Run(st, nodes), calls)
    decreases |nodes|
  {
    hide Step, Visible;
    if k == 0 {
      assert nodes[..0] == [];
      if nodes != [] {
        MonotonePrefix(Step(st, nodes[0]), calls, nodes[1..], 0);
        assert nodes[1..][..0] == [];
      }
    } else {
      assert nodes[..k][1..] == nodes[1..][..k - 1];
      MonotonePrefix(Step(st, nodes[0]), calls, nodes[1..], k - 1);
    }
  }

  lemma {:induction false} MonotoneTake(st: State, calls: seq<Call>, nodes: seq<Node>, k: nat)
    requires st.Valid() && Monotone(st, calls, nodes) && k <= |nodes|
    ensures Monotone(st, calls, nodes[..k])
    decreases |nodes|
  {
    hide Step, Visible;
    if k > 0 {
      assert nodes[..k][1..] == nodes[1..][..k - 1];
      MonotoneTake(Step(st, nodes[0]), calls, nodes[1..], k - 1);
    }
  }

  lemma CallMonotone(st: State, opening: string, args: seq<Arg>, p: nat, name: Node, closing: string)
    requires st.Valid() && p <= |AllEvents(args)| && name.tag == ToolName && TrimTrailing(name.text) != ""
    ensures Monotone(st, st.calls, CallEvents(opening, AllEvents(args), p, name) + [Node(ToolClose, closing)])
  {
    hide Step, InCall, Current, TrimTrailing, Inserted, AllEvents;
    var events := AllEvents(args);
    var nodes := CallEvents(opening, events, p, name) + [Node(ToolClose, closing)];
    EventsOrdered(false, args, []);
    assert events + [] == events;
    OpenEvent(st, opening);
    var open := Node(ToolOpen, opening);
    NamedKeeps(Step(st, open), st.calls, events, p, name, closing);
    assert nodes[1..] == Inserted(events, p, name) + [Node(ToolClose, closing)];
    OpenShowsNothing(st, open);
  }

  /** Between any two moments of a call the delta of its arguments can be computed. */
  lemma VisibleGrows(st: State, opening: string, args: seq<Arg>, p: nat, name: Node, closing: string, j: nat, k: nat)
    requires st.Valid() && p <= |AllEvents(args)| && name.tag == ToolName && TrimTrailing(name.text) != ""
    requires j <= k <= |CallEvents(opening, AllEvents(args), p, name)| + 1
    ensures var nodes := CallEvents(opening, AllEvents(args), p, name) + [Node(ToolClose, closing)];
      var x, y := Visible(Run(st, nodes[..j]), st.calls), Visible(Run(st, nodes[..k]), st.calls);
      x <= y && Streaming.StringDiff(x, y).Ok? && x + Streaming.StringDiff(x, y).value == y
  {
    hide Run, Visible, Monotone, CallEvents, AllEvents;
    var nodes := CallEvents(opening, AllEvents(args), p, name) + [Node(ToolClose, closing)];
    CallMonotone(st, opening, args, p, name, closing);
    MonotoneTake(st, st.calls, nodes, k);
    MonotonePrefix(st, st.calls, nodes[..k], j);
    assert nodes[..k][..j] == nodes[..j];
  }

  /** After any number of the events of a call, what is visible of its arguments is a prefix of
      what is visible in the end. */
  lemma VisibleWhole(st: State, opening: string, args: seq<Arg>, p: nat, name: Node, closing: string, k: nat)
    requires st.Valid() && p <= |AllEvents(args)| && forall i :: 0 <= i < |args| ==> Balanced(args[i])
    requires name.tag == ToolName && TrimTrailing(name.text) != ""
    requires k <= |AllEvents(args)| + 3
    ensures var nodes := CallEvents(opening, AllEvents(args), p, name) + [Node(ToolClose, closing)];
      k <= |nodes| && Visible(Run(st, nodes[..k]), st.calls) <= Object(args)
  {
    hide Step, InCall, Current, TrimTrailing, Inserted, Balanced, AllEvents, BraceDepth, Object, Monotone;
    var nodes := CallEvents(opening, AllEvents(args), p, name) + [Node(ToolClose, closing)];
    InsertedSize(AllEvents(args), p, name);
    CallMonotone(st, opening, args, p, name, closing);
    MonotonePrefix(st, st.calls, nodes, k);
    CallPrinted(st, opening, args, p, name, closing);
  }

  lemma InsertedSize(nodes: seq<Node>, p: nat, node: Node)
    requires p <= |nodes|
    ensures |Inserted(nodes, p, node)| == |nodes| + 1
  {
  }

  lemma OpenShowsNothing(st: State, open: Node)
    requires st.Valid() && open.tag == ToolOpen
    ensures Visible(st, st.calls) == Visible(Step(st, open), st.calls) == ""
  {
  }

  lemma ValuePrefix(v: string, value: string)
    requires v <= value
    ensures TrimValue(v) <= TrimValue(value)
  {
    var a, b := DropLeadingOne(v), DropLeadingOne(value);
    assert v != "" ==> v[0] == value[0];
    assert v != "" && IsSpace(v[0]) ==> v[1..] <= value[1..];
    assert a <= b;
    if |a| < |b| {
      assert a <= b[..|b| - 1];
    }
  }

  /** The call in the middle of a string value. */
  lemma InValue(st: State, opening: string, before: seq<Arg>, a: Arg, v: string, p: nat, name: Node)
    requires st.Valid()
    requires name.tag == ToolName && TrimTrailing(name.text) != ""
    requires p <= |AllEvents(before)| + 3
    ensures var nodes := AllEvents(before) + (Begun(a) + [Node(ArgStringValue, v)]);
      Visible(Run(st, CallEvents(opening, nodes, p, name)), st.calls)
        == "{" + Members(before, 0) + Entry(|before|, a.name) + ValueText(v, true, false).0
  {
    hide Step, InCall, Current, TrimTrailing, AllEvents, CallEvents, Visible, Entry, ViewStep, Target, ValueText, Members;
    var inValue := Begun(a) + [Node(ArgStringValue, v)];
    var nodes := AllEvents(before) + inValue;
    InValueOrdered(a, v);
    EventsOrdered(false, before, inValue);
    OpenCall(st, opening, nodes, p, name);
    var st' := Run(st, CallEvents(opening, nodes, p, name));
    VisibleTarget(st', st.calls);
    ViewRunConcat(View("{", 0, false), AllEvents(before), inValue);
    AllEventsView(View("{", 0, false), before);
    InValueView(View("{" + Members(before, 0), |before|, false), a, v);
  }

  /** In the middle of a string value too: the value cut anywhere, the name anywhere before. */
  lemma VisibleInValue(st: State, opening: string, before: seq<Arg>, a: Arg, v: string, after: seq<Arg>, p: nat, name: Node)
    requires st.Valid() && a.isString && v <= a.value
    requires name.tag == ToolName && TrimTrailing(name.text) != ""
    requires p <= |AllEvents(before)| + 3
    ensures var nodes := AllEvents(before) + (Begun(a) + [Node(ArgStringValue, v)]);
      Visible(Run(st, CallEvents(opening, nodes, p, name)), st.calls) <= Object(before + [a] + after)
  {
    hide Run, AllEvents, CallEvents, Visible, Entry, ValueText, Members, Printed, TrimTrailing;
    InValue(st, opening, before, a, v, p, name);
    MembersThrough(before, a, after, 0);
    ValueStarts(a, v);
    var m, e, tail := Members(before, 0), Entry(|before|, a.name), Members(after, |before| + 1);
    PrefixUnder("{" + m + e, ValueText(v, true, false).0, Printed(a), tail + "}");
    assert "{" + (m + e + Printed(a) + tail) + "}" == "{" + m + e + Printed(a) + (tail + "}");
  }

  lemma PrefixUnder(head: string, x: string, y: string, tail: string)
    requires x <= y
    ensures head + x <= head + y + tail
  {
  }

  lemma InValueOrdered(a: Arg, v: string)
    ensures forall begun :: Ordered(begun, Begun(a) + [Node(ArgStringValue, v)])
  {
    var nodes := Begun(a) + [Node(ArgStringValue, v)];
    assert nodes[1..][1..] == [Node(ArgStringValue, v)] && nodes[1..][1..][1..] == [];
    forall begun ensures Ordered(begun, nodes) {
      assert Ordered(true, nodes[1..][1..]);
      assert Ordered(begun, nodes[1..]);
    }
  }

  lemma InValueView(v0: View, a: Arg, v: string)
    ensures ViewRun(v0, Begun(a) + [Node(ArgStringValue, v)])
         == View(v0.text + Entry(v0.count, a.name) + ValueText(v, true, false).0, v0.count + 1, true)
  {
    hide Entry, Escape, TrimValue;
    ViewRunConcat(v0, Begun(a), [Node(ArgStringValue, v)]);
    BegunView(v0, a);
    var w := View(v0.text + Entry(v0.count, a.name), v0.count + 1, false);
    assert [Node(ArgStringValue, v)][1..] == [];
    assert ViewRun(w, [Node(ArgStringValue, v)]) == ViewRun(ViewStep(w, Node(ArgStringValue, v)), []);
  }

  lemma ValueStarts(a: Arg, v: string)
    requires a.isString && v <= a.value
    ensures ValueText(v, true, false).0 <= Printed(a)
  {
    hide TrimValue, Escape;
    ValuePrefix(v, a.value);
    EscapePrefix(TrimValue(v), TrimValue(a.value));
  }

  lemma {:induction false} MembersThrough(before: seq<Arg>, a: Arg, after: seq<Arg>, count: nat)
    ensures Members(before + [a] + after, count) ==
      Members(before, count) + Entry(count + |before|, a.name) + Printed(a) + Members(after, count + |before| + 1)
    decreases |before|
  {
    hide Entry, Printed;
    var all := before + [a] + after;
    if before == [] {
      assert all[0] == a && all[1..] == after;
      assert Members(before, count) + Entry(count, a.name) == Entry(count, a.name);
    } else {
      var x, head := before[0], Entry(count, before[0].name) + Printed(before[0]);
      assert all[0] == x && all[1..] == before[1..] + [a] + after;
      MembersThrough(before[1..], a, after, count + 1);
      var m, e, q, r := Members(before[1..], count + 1), Entry(count + |before|, a.name), Printed(a), Members(after, count + |before| + 1);
      assert head + (m + e + q + r) == head + m + e + q + r;
    }
  }

  // ---- the flush after the last event ----

  lemma {:induction false} StepNameless(st: State, node: Node)
    requires st.Valid() && (st.pending.Some? ==> st.pending.value.name == "")
    ensures var st' := Step(st, node); st'.pending.Some? ==> st'.pending.value.name == ""
  {
    hide ValueText, Entry, TrimTrailing, BraceDepth, Braces, Unquoted;
  }

  lemma {:induction false} RunNameless(st: State, nodes: seq<Node>)
    requires st.Valid() && (st.pending.Some? ==> st.pending.value.name == "")
    ensures var st' := Run(st, nodes); st'.pending.Some? ==> st'.pending.value.name == ""
    decreases |nodes|
  {
    hide Step;
    if nodes != [] {
      StepNameless(st, nodes[0]);
      RunNameless(Step(st, nodes[0]), nodes[1..]);
    }
  }

  /** A pending call never has a name, so the flush at the end adds no call: what is visible are the
      calls named by some event. */
  lemma FlushAddsNothing(nodes: seq<Node>)
    ensures Finish(Run(START, nodes)).calls == Run(START, nodes).calls
  {
    hide Run;
    RunNameless(START, nodes);
  }
}
