/** What a whole answer becomes, piece by piece: its content, its reasoning and its calls. */
module Answers {
  import opened Wrappers
  import opened Json
  import opened Mapper
  import opened MapperRuns
  import opened ChatStream
  import Quotes
  import Streaming

  // ---- the texts of events ----

  predicate IsWhite(c: char) {
    c in {' ', '\t', '\n', '\U{b}', '\U{c}', '\r'}
  }

  lemma WhiteIsSpace(c: char)
    ensures IsWhite(c) == IsSpace(c)
  {
  }

  /** t is s without all white space at its end. */
  predicate Ends(s: string, t: string) {
    && t <= s && (t == "" || !IsWhite(t[|t| - 1]))
    && forall k :: |t| <= k < |s| ==> IsWhite(s[k])
  }

  lemma {:induction false} TrimmedEnd(s: string)
    ensures Ends(s, TrimTrailing(s))
  {
    hide IsWhite, IsSpace;
    if s != "" {
      WhiteIsSpace(s[|s| - 1]);
      if IsSpace(s[|s| - 1]) {
        TrimmedEnd(s[..|s| - 1]);
      }
    }
  }

  /** There is only one such text. */
  lemma EndsOnce(s: string, t: string, u: string)
    requires Ends(s, t) && Ends(s, u)
    ensures t == u
  {
    assert forall x: string :: x <= s && x != "" ==> s[|x| - 1] == x[|x| - 1];
    assert |t| == |u|;
  }

  /** Where the text of s starts and ends without one white space at either end. */
  function Starting(s: string): nat {
    if s != "" && IsWhite(s[0]) then 1 else 0
  }

  function Ending(s: string): (k: nat)
    ensures Starting(s) <= k <= |s|
  {
    if |s| > Starting(s) && IsWhite(s[|s| - 1]) then |s| - 1 else |s|
  }

  /** The name of an argument loses one white space before it and all after it; a value one at either end,
      and one with brackets its single quotes, but not what it means. */
  lemma ArgumentTexts(name: string, value: string)
    ensures Ends(name[Starting(name)..], TrimName(name))
    ensures var v := value[Starting(value)..Ending(value)];
      && TrimValue(value) == v
      && (v == "" || v[0] !in {'[', '{'} ==> RawText(value) == v)
      && (v != "" && v[0] in {'[', '{'} ==>
           Quotes.Lex(false, Quotes.Outside, RawText(value)) == Quotes.Lex(true, Quotes.Outside, v))
  {
    hide Quotes.Lex, Quotes.Normal;
    TrimmedEnd(name[Starting(name)..]);
    var v := value[Starting(value)..Ending(value)];
    assert TrimValue(value) == v;
    Quotes.MeaningKept(Quotes.Outside, v);
  }

  /** An id loses the white space at its end and then its quotes. */
  predicate Bare(t: string, id: string) {
    if |t| >= 2 && t[0] == '"' && t[|t| - 1] == '"' then t == "\"" + id + "\"" else t == id
  }

  /** One closing brace for each that is open. */
  predicate Closed(t: string, arguments: string) {
    && t <= arguments && |arguments| - |t| == (if BraceDepth(t) > 0 then BraceDepth(t) else 0)
    && forall k :: |t| <= k < |arguments| ==> arguments[k] == '}'
  }

  lemma BareUnquoted(t: string)
    ensures Bare(t, Unquoted(t))
  {
  }

  lemma {:induction false} SomeBraces(n: int)
    ensures |Braces(n)| == (if n > 0 then n else 0) && forall k :: 0 <= k < |Braces(n)| ==> Braces(n)[k] == '}'
    decreases if n > 0 then n else 0
  {
    if n > 0 {
      SomeBraces(n - 1);
    }
  }

  lemma BracesClose(t: string)
    ensures Closed(t, t + Braces(BraceDepth(t)))
  {
    hide BraceDepth, Braces;
    SomeBraces(BraceDepth(t));
  }

  // ---- calls ----

  /** A call from the texts of its name, its id and its arguments; anything but an object gives no arguments. */
  ghost predicate CallFrom(name: string, id: string, arguments: string, c: Call) {
    && Ends(name, c.name)
    && (exists t :: Ends(id, t) && Bare(t, c.id))
    && if arguments == "" || arguments[0] != '{' then c.arguments == "{}"
       else exists t :: Ends(arguments, t) && Closed(t, c.arguments)
  }

  predicate IsPart(node: Node) {
    node.tag in {ToolName, ToolId, ToolArgs} && (node.tag == ToolName ==> !Ends(node.text, ""))
  }

  /** What an event says of a call; arguments must be an object. */
  predicate Tells(node: Node, tag: Tag) {
    node.tag == tag && (tag == ToolArgs ==> node.text != "" && node.text[0] == '{')
  }

  /** The last that was said of it, if anything. */
  function LastTold(parts: seq<Node>, tag: Tag): string {
    if parts == [] then ""
    else if Tells(parts[|parts| - 1], tag) then parts[|parts| - 1].text
    else LastTold(parts[..|parts| - 1], tag)
  }

  function Named(parts: seq<Node>): string { TrimTrailing(LastTold(parts, ToolName)) }
  function Identified(parts: seq<Node>): string { Unquoted(TrimTrailing(LastTold(parts, ToolId))) }
  function Given(parts: seq<Node>): string { TrimTrailing(LastTold(parts, ToolArgs)) }

  /** The call being built after calls, from these texts. */
  predicate Built(st: State, calls: seq<Call>, name: string, id: string, arguments: string) {
    && st.Valid() && !st.closing
    && if name == "" then
         && st.cursor == Pending && st.calls == calls && st.buffer == arguments
         && st.pending.value == Streaming.Call("", "", id)
       else
         && st.cursor == Last && st.buffer == ""
         && st.calls == calls + [Streaming.Call(name, if arguments == "" then "{" else arguments, id)]
  }

  lemma PartBuilt(st: State, calls: seq<Call>, parts: seq<Node>, node: Node)
    requires Built(st, calls, Named(parts), Identified(parts), Given(parts)) && IsPart(node)
    ensures Built(Step(st, node), calls, Named(parts + [node]), Identified(parts + [node]), Given(parts + [node]))
    ensures Step(st, node).content == st.content && Step(st, node).reasoning == st.reasoning
  {
    hide TrimTrailing, Unquoted, Ends;
    assert (parts + [node])[..|parts|] == parts;
    PartTexts(node);
  }

  lemma PartTexts(node: Node)
    requires IsPart(node)
    ensures var t := TrimTrailing(node.text);
      && (node.tag == ToolName ==> t != "")
      && (t != "" && t[0] == '{' <==> node.text != "" && node.text[0] == '{')
  {
    TrimmedEnd(node.text);
  }

  lemma {:induction false} PartsBuilt(st: State, calls: seq<Call>, parts: seq<Node>)
    requires st.Valid() && Built(st, calls, "", "", "") && forall i :: 0 <= i < |parts| ==> IsPart(parts[i])
    ensures var st' := Run(st, parts);
      && Built(st', calls, Named(parts), Identified(parts), Given(parts))
      && st'.content == st.content && st'.reasoning == st.reasoning
    decreases |parts|
  {
    hide Step, Built, IsPart, Named, Identified, Given;
    if parts == [] {
      NothingTold();
    } else {
      var k := |parts| - 1;
      PartsBuilt(st, calls, parts[..k]);
      PartBuilt(Run(st, parts[..k]), calls, parts[..k], parts[k]);
      assert parts == parts[..k] + [parts[k]];
      RunConcat(st, parts[..k], [parts[k]]);
      RunOne(Run(st, parts[..k]), parts[k]);
    }
  }

  lemma NothingTold()
    ensures Named([]) == Identified([]) == Given([]) == ""
  {
  }

  lemma OpenBuilt(st: State, opening: string)
    requires st.Valid()
    ensures var st' := Step(st, Node(ToolOpen, opening));
      Built(st', st.calls, "", "", "") && st'.content == st.content && st'.reasoning == st.reasoning
  {
  }

  lemma CloseBuilt(st: State, calls: seq<Call>, name: string, id: string, arguments: string, closing: string)
    requires Built(st, calls, name, id, arguments)
    ensures var st' := Step(st, Node(ToolClose, closing));
      && st'.content == st.content && st'.reasoning == st.reasoning
      && var t := if arguments == "" then "{" else arguments;
         st'.calls == if name == "" then calls else calls + [Streaming.Call(name, t + Braces(BraceDepth(t)), id)]
  {
    hide BraceDepth, Braces;
    assert forall t: string :: t + "" == t;
  }

  lemma ToldFrom(parts: seq<Node>)
    requires Named(parts) != ""
    ensures var t := if Given(parts) == "" then "{" else Given(parts);
      CallFrom(LastTold(parts, ToolName), LastTold(parts, ToolId), LastTold(parts, ToolArgs),
               Streaming.Call(Named(parts), t + Braces(BraceDepth(t)), Identified(parts)))
  {
    hide BraceDepth, Braces, TrimTrailing, Unquoted, LastTold, Closed, Bare;
    TrimmedEnd(LastTold(parts, ToolName));
    TrimmedEnd(LastTold(parts, ToolId));
    TrimmedEnd(LastTold(parts, ToolArgs));
    BareUnquoted(TrimTrailing(LastTold(parts, ToolId)));
    BracesClose(Given(parts));
    NoArguments();
    GivenObject(parts);
  }

  lemma NoArguments()
    ensures "{" + Braces(BraceDepth("{")) == "{}"
  {
    ObjectDepth([]);
    assert "{" + "" == "{" && Braces(1) == Braces(0) + "}";
  }

  lemma {:induction false} GivenObject(parts: seq<Node>)
    ensures var text := LastTold(parts, ToolArgs);
      (text == "" || text[0] == '{') && (Given(parts) == "" <==> text == "")
    decreases |parts|
  {
    if parts != [] && !Tells(parts[|parts| - 1], ToolArgs) {
      GivenObject(parts[..|parts| - 1]);
    } else if parts != [] {
      TrimmedEnd(parts[|parts| - 1].text);
    }
  }

  lemma ToldNamed(parts: seq<Node>)
    requires forall i :: 0 <= i < |parts| ==> IsPart(parts[i])
    ensures Named(parts) == "" <==> forall i :: 0 <= i < |parts| ==> parts[i].tag != ToolName
    decreases |parts|
  {
    if parts != [] {
      var k := |parts| - 1;
      TrimmedEnd(parts[k].text);
      ToldNamed(parts[..k]);
      assert forall i :: 0 <= i < k ==> parts[..k][i] == parts[i];
    }
  }

  /** In whatever order its name, its id and its arguments come, and however often: after any run a call is
      added that has the last of each; without a name there is none. */
  lemma PartsCall(st: State, opening: string, parts: seq<Node>, closing: string)
    requires st.Valid() && forall i :: 0 <= i < |parts| ==> IsPart(parts[i])
    ensures var st' := Run(st, [Node(ToolOpen, opening)] + parts + [Node(ToolClose, closing)]);
      && st'.content == st.content && st'.reasoning == st.reasoning
      && if forall i :: 0 <= i < |parts| ==> parts[i].tag != ToolName then st'.calls == st.calls
         else exists c ::
           && st'.calls == st.calls + [c]
           && CallFrom(LastTold(parts, ToolName), LastTold(parts, ToolId), LastTold(parts, ToolArgs), c)
  {
    hide Step, Built, IsPart, Named, Identified, Given, CallFrom, BraceDepth, Braces, LastTold, Run;
    var open, close := Node(ToolOpen, opening), Node(ToolClose, closing);
    RunConcat(st, [open] + parts, [close]);
    RunConcat(st, [open], parts);
    RunOne(st, open);
    OpenBuilt(st, opening);
    var begun := Step(st, open);
    PartsBuilt(begun, st.calls, parts);
    var built := Run(begun, parts);
    RunOne(built, close);
    CloseBuilt(built, st.calls, Named(parts), Identified(parts), Given(parts), closing);
    ToldNamed(parts);
    if Named(parts) != "" {
      ToldFrom(parts);
    }
  }

  // ---- whole answers ----

  predicate IsCall(piece: Piece) {
    piece.Called? || piece.CalledWith?
  }

  /** The call of a piece: all its arguments as one object, or the object given. */
  ghost predicate CallOf(piece: Piece, c: Call) {
    match piece
    case Called(_, args, _, name, _) => (
      && Ends(name, c.name) && c.id == "" && Closed("{" + Members(args, 0), c.arguments)
      && ((forall i :: 0 <= i < |args| ==> Balanced(args[i])) ==> c.arguments == Object(args)))
    case CalledWith(_, name, id, arguments, _) => CallFrom(name, id, arguments, c)
    case _ => false
  }

  lemma {:induction false} EventTextsKept(st: State, node: Node)
    requires st.Valid() && node.tag != Content && node.tag != Reasoning
    ensures Step(st, node).content == st.content && Step(st, node).reasoning == st.reasoning
  {
    hide BraceDepth, Braces, TrimTrailing, ValueText, Entry, Unquoted;
  }

  lemma {:induction false} TextsKept(st: State, nodes: seq<Node>)
    requires st.Valid() && forall i :: 0 <= i < |nodes| ==> nodes[i].tag != Content && nodes[i].tag != Reasoning
    ensures Run(st, nodes).content == st.content && Run(st, nodes).reasoning == st.reasoning
    decreases |nodes|
  {
    hide Step;
    if nodes != [] {
      EventTextsKept(st, nodes[0]);
      TextsKept(Step(st, nodes[0]), nodes[1..]);
    }
  }

  lemma {:induction false} EventsOfCall(args: seq<Arg>)
    ensures forall i :: 0 <= i < |AllEvents(args)| ==> AllEvents(args)[i].tag != Content && AllEvents(args)[i].tag != Reasoning
    decreases |args|
  {
    if args != [] {
      EventsOfCall(args[1..]);
    }
  }

  /** The end of a call closes its string, if it is in one, and its braces. */
  lemma CloseAdds(st: State, calls: seq<Call>, closing: string)
    requires InCall(st, calls) && st.cursor == Last
    ensures var t := Target(st) + if st.closing then "\"" else "";
      Step(st, Node(ToolClose, closing)).calls
        == calls + [Streaming.Call(Current(st).name, t + Braces(BraceDepth(t)), Current(st).id)]
  {
    hide BraceDepth, Braces;
    assert st.calls == calls + [Current(st)];
  }

  lemma CalledAdds(st: State, piece: Piece)
    requires st.Valid() && WellFormed(piece) && piece.Called?
    ensures exists c :: Run(st, PieceEvents(piece)).calls == st.calls + [c] && CallOf(piece, c)
  {
    hide Step, InCall, Current, TrimTrailing, Inserted, AllEvents, Balanced, Target, BraceDepth, Braces, Closed, Members,
      CallEvents;
    var name, close := Node(ToolName, piece.name), Node(ToolClose, piece.closing);
    var events := AllEvents(piece.args);
    EventsOrdered(false, piece.args, []);
    assert events + [] == events;
    OpenCall(st, piece.opening, events, piece.p, name);
    AllEventsView(View("{", 0, false), piece.args);
    var before := Run(st, CallEvents(piece.opening, events, piece.p, name));
    RunConcat(st, CallEvents(piece.opening, events, piece.p, name), [close]);
    RunOne(before, close);
    CloseAdds(before, st.calls, piece.closing);
    var t := "{" + Members(piece.args, 0);
    assert t + "" == t;
    BracesClose(t);
    TrimmedEnd(piece.name);
    var c := Streaming.Call(TrimTrailing(piece.name), t + Braces(BraceDepth(t)), "");
    if forall i :: 0 <= i < |piece.args| ==> Balanced(piece.args[i]) {
      ObjectDepth(piece.args);
      assert Braces(1) == "}" by { OneBrace(); }
    }
    assert CallOf(piece, c);
  }

  lemma OneBrace()
    ensures Braces(1) == "}"
  {
    assert Braces(1) == Braces(0) + "}";
  }

  lemma CalledWithAdds(st: State, piece: Piece)
    requires st.Valid() && WellFormed(piece) && piece.CalledWith?
    ensures exists c :: Run(st, PieceEvents(piece)).calls == st.calls + [c] && CallOf(piece, c)
  {
    hide Step, TrimTrailing, Unquoted, CallFrom, LastTold, Run, Ends;
    var name, id, arguments := Node(ToolName, piece.name), Node(ToolId, piece.id), Node(ToolArgs, piece.arguments);
    var parts := [name, id, arguments];
    assert !Ends(piece.name, "") by { TrimmedEnd(piece.name); NotEndless(piece.name); }
    assert forall i :: 0 <= i < |parts| ==> IsPart(parts[i]);
    PartsCall(st, piece.opening, parts, piece.closing);
    assert PieceEvents(piece) == [Node(ToolOpen, piece.opening)] + parts + [Node(ToolClose, piece.closing)];
    ThreeTold(name, id, arguments);
    assert parts[0].tag == ToolName;
    var c :| Run(st, PieceEvents(piece)).calls == st.calls + [c]
      && CallFrom(LastTold(parts, ToolName), LastTold(parts, ToolId), LastTold(parts, ToolArgs), c);
    SameArguments(piece.name, piece.id, piece.arguments, LastTold(parts, ToolArgs), c);
  }

  lemma NotEndless(s: string)
    requires TrimTrailing(s) != "" && Ends(s, TrimTrailing(s))
    ensures !Ends(s, "")
  {
    hide TrimTrailing;
    assert IsWhite(s[|TrimTrailing(s)| - 1]) == IsWhite(TrimTrailing(s)[|TrimTrailing(s)| - 1]);
  }

  lemma ThreeTold(name: Node, id: Node, arguments: Node)
    requires name.tag == ToolName && id.tag == ToolId && arguments.tag == ToolArgs
    ensures var parts := [name, id, arguments];
      && LastTold(parts, ToolName) == name.text && LastTold(parts, ToolId) == id.text
      && LastTold(parts, ToolArgs) == if arguments.text != "" && arguments.text[0] == '{' then arguments.text else ""
  {
    var parts := [name, id, arguments];
    assert parts[..2] == [name, id] && parts[..2][..1] == [name] && [name][..0] == [];
    assert forall tag :: LastTold([], tag) == "";
    assert forall tag :: LastTold([name], tag) == if Tells(name, tag) then name.text else "";
    assert forall tag :: LastTold([name, id], tag) == if Tells(id, tag) then id.text else LastTold([name], tag);
    assert forall tag :: LastTold(parts, tag) == if Tells(arguments, tag) then arguments.text else LastTold([name, id], tag);
  }

  lemma SameArguments(name: string, id: string, arguments: string, told: string, c: Call)
    requires told == if arguments != "" && arguments[0] == '{' then arguments else ""
    requires CallFrom(name, id, told, c)
    ensures CallFrom(name, id, arguments, c)
  {
    hide Ends, Bare, Closed;
  }

  function SaidTexts(pieces: seq<Piece>): string {
    if pieces == [] then "" else (if pieces[0].Said? then pieces[0].text else "") + SaidTexts(pieces[1..])
  }

  function ThoughtTexts(pieces: seq<Piece>): string {
    if pieces == [] then "" else (if pieces[0].Thought? then pieces[0].text else "") + ThoughtTexts(pieces[1..])
  }

  /** One call for each piece that is one, in order. */
  ghost predicate CallsOf(pieces: seq<Piece>, calls: seq<Call>) {
    if pieces == [] then calls == []
    else if IsCall(pieces[0]) then calls != [] && CallOf(pieces[0], calls[0]) && CallsOf(pieces[1..], calls[1..])
    else CallsOf(pieces[1..], calls)
  }

  lemma PieceAdds(st: State, piece: Piece)
    requires st.Valid() && WellFormed(piece)
    ensures var st' := Run(st, PieceEvents(piece));
      && st'.content == st.content + (if piece.Said? then piece.text else "")
      && st'.reasoning == st.reasoning + (if piece.Thought? then piece.text else "")
      && if IsCall(piece) then exists c :: st'.calls == st.calls + [c] && CallOf(piece, c) else st'.calls == st.calls
  {
    hide WellFormed, CallOf, Step, AllEvents, Run;
    assert st.content + "" == st.content && st.reasoning + "" == st.reasoning;
    if IsCall(piece) {
      hide PieceEvents;
      NoTexts(piece);
      TextsKept(st, PieceEvents(piece));
      if piece.Called? {
        CalledAdds(st, piece);
      } else {
        CalledWithAdds(st, piece);
      }
    } else {
      RunOne(st, PieceEvents(piece)[0]);
      TextAdds(st, PieceEvents(piece)[0]);
    }
  }

  lemma NoTexts(piece: Piece)
    requires WellFormed(piece) && IsCall(piece)
    ensures forall i :: 0 <= i < |PieceEvents(piece)| ==>
      PieceEvents(piece)[i].tag != Content && PieceEvents(piece)[i].tag != Reasoning
  {
    hide AllEvents, TrimTrailing, Unquoted;
    if piece.Called? {
      EventsOfCall(piece.args);
    }
  }

  lemma TextAdds(st: State, node: Node)
    requires st.Valid() && (node.tag == Content || node.tag == Reasoning)
    ensures Step(st, node) == if node.tag == Content then st.(content := st.content + node.text)
                              else st.(reasoning := st.reasoning + node.text)
  {
  }

  lemma {:induction false} PiecesAdd(st: State, pieces: seq<Piece>)
    requires st.Valid() && forall i :: 0 <= i < |pieces| ==> WellFormed(pieces[i])
    ensures var st' := Run(st, AnswerEvents(pieces));
      && st'.content == st.content + SaidTexts(pieces) && st'.reasoning == st.reasoning + ThoughtTexts(pieces)
      && exists calls :: st'.calls == st.calls + calls && CallsOf(pieces, calls)
    decreases |pieces|
  {
    hide WellFormed, CallOf, CallsOf, Run, PieceEvents, IsCall;
    if pieces == [] {
      RunNothing(st);
      NoCalls();
      assert st.calls + [] == st.calls && st.content + "" == st.content && st.reasoning + "" == st.reasoning;
    } else {
      var piece := pieces[0];
      PieceAdds(st, piece);
      RunConcat(st, PieceEvents(piece), AnswerEvents(pieces[1..]));
      var mid := Run(st, PieceEvents(piece));
      PiecesAdd(mid, pieces[1..]);
      Joined(st.content, if piece.Said? then piece.text else "", SaidTexts(pieces[1..]));
      Joined(st.reasoning, if piece.Thought? then piece.text else "", ThoughtTexts(pieces[1..]));
      var calls :| Run(mid, AnswerEvents(pieces[1..])).calls == mid.calls + calls && CallsOf(pieces[1..], calls);
      CallsMore(st.calls, mid.calls, pieces, calls);
    }
  }

  lemma Joined<T>(a: seq<T>, b: seq<T>, c: seq<T>)
    ensures a + b + c == a + (b + c)
  {
  }

  lemma NoCalls()
    ensures CallsOf([], [])
  {
  }

  lemma CallsMore(before: seq<Call>, now: seq<Call>, pieces: seq<Piece>, calls: seq<Call>)
    requires pieces != [] && CallsOf(pieces[1..], calls)
    requires if IsCall(pieces[0]) then exists c :: now == before + [c] && CallOf(pieces[0], c) else now == before
    ensures exists all :: now + calls == before + all && CallsOf(pieces, all)
  {
    hide CallOf;
    if IsCall(pieces[0]) {
      var c :| now == before + [c] && CallOf(pieces[0], c);
      var all := [c] + calls;
      assert all[1..] == calls && now + calls == before + all;
      assert CallsOf(pieces, all);
    } else {
      assert CallsOf(pieces, calls);
    }
  }

  lemma RunNothing(st: State)
    requires st.Valid()
    ensures Run(st, []) == st
  {
  }

  predicate Blank(s: string) {
    forall i :: 0 <= i < |s| ==> s[i] in {' ', '\t', '\n', '\r'}
  }

  lemma Finished(st: State)
    requires st.Valid() && (st.pending.Some? ==> st.pending.value.name == "")
    ensures MessageOf(st) == Streaming.Message(st.content, if Blank(st.reasoning) then "" else st.reasoning, st.calls)
  {
    assert Blank(st.reasoning) <==> OnlyWhitespace(st.reasoning);
  }

  /** The message of a whole answer: all that was said, all that was thought unless it is blank, and one call
      for each that was made, with all its arguments. */
  lemma AnswerRead(pieces: seq<Piece>)
    requires forall i :: 0 <= i < |pieces| ==> WellFormed(pieces[i])
    ensures var m, thoughts := MessageOf(Run(START, AnswerEvents(pieces))), ThoughtTexts(pieces);
      && m.content == SaidTexts(pieces)
      && m.reasoning == (if Blank(thoughts) then "" else thoughts)
      && CallsOf(pieces, m.calls)
  {
    hide Run, CallsOf, WellFormed, AnswerEvents, MessageOf, Blank, SaidTexts, ThoughtTexts;
    PiecesAdd(START, pieces);
    RunNameless(START, AnswerEvents(pieces));
    var st := Run(START, AnswerEvents(pieces));
    Finished(st);
    var calls :| st.calls == START.calls + calls && CallsOf(pieces, calls);
    assert START.calls + calls == calls;
    assert "" + ThoughtTexts(pieces) == ThoughtTexts(pieces) && "" + SaidTexts(pieces) == SaidTexts(pieces);
  }

  /** A call that ends in the middle of a string value is the call that ends with that value as far as it came. */
  lemma ClosedInValue(st: State, opening: string, before: seq<Arg>, a: Arg, p: nat, name: Node, closing: string)
    requires st.Valid() && a.isString && name.tag == ToolName && TrimTrailing(name.text) != "" && p <= |AllEvents(before)| + 3
    requires forall i :: 0 <= i < |before| ==> Balanced(before[i])
    ensures var nodes := AllEvents(before) + (Begun(a) + [Node(ArgStringValue, a.value)]);
      exists c :: Run(st, CallEvents(opening, nodes, p, name) + [Node(ToolClose, closing)]).calls == st.calls + [c]
        && Ends(name.text, c.name) && c.id == "" && c.arguments == Object(before + [a])
  {
    hide Step, InCall, Current, TrimTrailing, AllEvents, CallEvents, Entry, ViewStep, Target, Members, BraceDepth, Braces,
      Balanced, ValueText;
    var inValue, close := Begun(a) + [Node(ArgStringValue, a.value)], Node(ToolClose, closing);
    var nodes := AllEvents(before) + inValue;
    InValueOrdered(a, a.value);
    EventsOrdered(false, before, inValue);
    OpenCall(st, opening, nodes, p, name);
    var st' := Run(st, CallEvents(opening, nodes, p, name));
    RunConcat(st, CallEvents(opening, nodes, p, name), [close]);
    RunOne(st', close);
    ViewRunConcat(View("{", 0, false), AllEvents(before), inValue);
    AllEventsView(View("{", 0, false), before);
    InValueView(View("{" + Members(before, 0), |before|, false), a, a.value);
    CloseAdds(st', st.calls, closing);
    LastValue(before, a);
    TrimmedEnd(name.text);
    BalancedMore(before, a);
    ObjectDepth(before + [a]);
    OneBrace();
  }

  lemma {:induction false} LastValue(before: seq<Arg>, a: Arg)
    requires a.isString
    ensures "{" + Members(before, 0) + Entry(|before|, a.name) + ValueText(a.value, true, false).0 + "\""
         == "{" + Members(before + [a], 0)
  {
    hide Entry, Members, ValueText, Printed;
    var m, e, v, quote := Members(before, 0), Entry(|before|, a.name), ValueText(a.value, true, false).0, "\"";
    assert Members(before + [a], 0) == m + e + (v + quote) + "" by {
      MembersThrough(before, a, [], 0);
      assert before + [a] + [] == before + [a];
      NoMembers(|before| + 1);
      StringPrinted(a);
    }
    Regrouped("{", m, e, v, quote);
  }

  lemma Regrouped(a: string, b: string, c: string, d: string, e: string)
    ensures a + b + c + d + e == a + (b + c + (d + e) + "")
  {
  }

  lemma StringPrinted(a: Arg)
    requires a.isString
    ensures ValueText(a.value, true, false).0 + "\"" == Printed(a)
  {
    EscapeNothing();
    assert "\"" + "" + "\"" == "\"" + "\"";
  }

  lemma NoMembers(count: nat)
    ensures Members([], count) == ""
  {
  }

  lemma BalancedMore(before: seq<Arg>, a: Arg)
    requires a.isString && forall i :: 0 <= i < |before| ==> Balanced(before[i])
    ensures forall i :: 0 <= i < |before + [a]| ==> Balanced((before + [a])[i])
  {
  }

  // ---- string values in pieces ----

  function StringNodes(vs: seq<string>): (nodes: seq<Node>)
    ensures |nodes| == |vs| && forall i :: 0 <= i < |vs| ==> nodes[i] == Node(ArgStringValue, vs[i])
  {
    seq(|vs|, i requires 0 <= i < |vs| => Node(ArgStringValue, vs[i]))
  }

  /** All pieces, each trimmed. */
  function WholeValue(vs: seq<string>): string {
    if vs == [] then "" else WholeValue(vs[..|vs| - 1]) + TrimValue(vs[|vs| - 1])
  }

  /** No piece after the first is blank. */
  predicate NoneBlank(vs: seq<string>) {
    forall i :: 1 <= i < |vs| ==> TrimValue(vs[i]) != ""
  }

  /** What the pieces print before the value is closed: one that is blank prints a quote. */
  function Pieces(vs: seq<string>): string {
    if vs == [] then ""
    else
      var v := TrimValue(vs[|vs| - 1]);
      Pieces(vs[..|vs| - 1]) + if |vs| == 1 then "\"" + Escape(v) else if v == "" then "\"" else Escape(v)
  }

  lemma {:induction false} PiecesView(v: View, vs: seq<string>)
    requires !v.closing
    ensures ViewRun(v, StringNodes(vs)) == View(v.text + Pieces(vs), v.count, vs != [])
    decreases |vs|
  {
    hide ViewStep, TrimValue, Escape;
    if vs == [] {
      assert v.text + "" == v.text;
    } else {
      var k := |vs| - 1;
      var node := Node(ArgStringValue, vs[k]);
      PiecesView(v, vs[..k]);
      assert StringNodes(vs) == StringNodes(vs[..k]) + [node];
      ViewRunConcat(v, StringNodes(vs[..k]), [node]);
      var w := ViewRun(v, StringNodes(vs[..k]));
      ViewOne(w, node);
      StringView(w, vs[k]);
      var value := TrimValue(vs[k]);
      Joined(v.text, Pieces(vs[..k]), if k == 0 then "\"" + Escape(value) else if value == "" then "\"" else Escape(value));
    }
  }

  lemma StringView(v: View, value: string)
    ensures var t := TrimValue(value);
      ViewStep(v, Node(ArgStringValue, value)) ==
        View(v.text + (if !v.closing then "\"" + Escape(t) else if t == "" then "\"" else Escape(t)), v.count, true)
  {
    hide TrimValue, Escape;
    assert Escape("") == "" by { EscapeNothing(); }
    assert "\"" + "" == "\"" && "" + Escape(TrimValue(value)) == Escape(TrimValue(value));
  }

  lemma ViewOne(v: View, node: Node)
    ensures ViewRun(v, [node]) == ViewStep(v, node)
  {
    hide ViewStep;
    assert [node][1..] == [];
    assert ViewRun(v, [node]) == ViewRun(ViewStep(v, node), []);
  }

  /** The pieces print one string of all of them exactly when none after the first is blank. */
  lemma {:induction false} PiecesString(vs: seq<string>)
    requires vs != []
    ensures |Pieces(vs)| >= 1 + |Escape(WholeValue(vs))|
    ensures NoneBlank(vs) ==> Pieces(vs) == "\"" + Escape(WholeValue(vs))
    ensures !NoneBlank(vs) ==> |Pieces(vs)| > 1 + |Escape(WholeValue(vs))|
    decreases |vs|
  {
    hide TrimValue, Escape;
    var k := |vs| - 1;
    var v, before := TrimValue(vs[k]), vs[..k];
    EscapeConcat(WholeValue(before), v);
    assert Escape("") == "" by { EscapeNothing(); }
    if k == 0 {
      assert Pieces(before) == "" && WholeValue(before) == "";
      assert "" + v == v && "" + ("\"" + Escape(v)) == "\"" + Escape(v);
    } else {
      PiecesString(before);
      assert NoneBlank(vs) <==> NoneBlank(before) && v != "";
      assert "\"" + Escape(WholeValue(before)) + Escape(v) == "\"" + (Escape(WholeValue(before)) + Escape(v));
    }
  }

  /** A string value that comes in pieces is shown as the string of all of them exactly when none after the first
      is blank. */
  lemma PiecedValue(st: State, opening: string, a: Arg, vs: seq<string>, p: nat, name: Node)
    requires st.Valid() && vs != [] && name.tag == ToolName && TrimTrailing(name.text) != "" && p <= |vs| + 3
    ensures var nodes := Begun(a) + (StringNodes(vs) + [Node(ArgClose, a.closing)]);
      exists value ::
        && Visible(Run(st, CallEvents(opening, nodes, p, name)), st.calls) == "{" + Dump(TrimName(a.name)) + ":" + value
        && (value == Dump(WholeValue(vs)) <==> NoneBlank(vs))
  {
    hide Step, InCall, Current, TrimTrailing, CallEvents, Visible, ViewStep, Target, Pieces, WholeValue, NoneBlank, Dump, ViewOf,
      Ordered, Begun, StringNodes, Entry, TrimName;
    var nodes := Begun(a) + (StringNodes(vs) + [Node(ArgClose, a.closing)]);
    PiecedOrdered(a, vs);
    OpenCall(st, opening, nodes, p, name);
    var st' := Run(st, CallEvents(opening, nodes, p, name));
    VisibleTarget(st', st.calls);
    PiecedView(a, vs);
    PiecesWhole(vs);
    FirstEntry(a.name);
    Regrouped5("{", Dump(TrimName(a.name)), ":", Pieces(vs), "\"");
    var value := Pieces(vs) + "\"";
    assert Visible(st', st.calls) == "{" + Dump(TrimName(a.name)) + ":" + value;
  }

  lemma Regrouped5(a: string, b: string, c: string, d: string, e: string)
    ensures a + (b + c) + d + e == a + b + c + (d + e)
  {
  }

  lemma FirstEntry(name: string)
    ensures Entry(0, name) == Dump(TrimName(name)) + ":"
  {
    hide Dump, TrimName;
    assert "" + Dump(TrimName(name)) == Dump(TrimName(name));
  }

  lemma PiecesWhole(vs: seq<string>)
    requires vs != []
    ensures Pieces(vs) + "\"" == Dump(WholeValue(vs)) <==> NoneBlank(vs)
  {
    hide Pieces, WholeValue, NoneBlank, Escape;
    PiecesString(vs);
    assert |Dump(WholeValue(vs))| == |Escape(WholeValue(vs))| + 2;
  }

  lemma PiecedOrdered(a: Arg, vs: seq<string>)
    ensures var nodes := Begun(a) + (StringNodes(vs) + [Node(ArgClose, a.closing)]);
      Ordered(false, nodes) && |nodes| == |vs| + 3
  {
    hide Ordered;
    var rest := StringNodes(vs) + [Node(ArgClose, a.closing)];
    PiecesOrdered(vs, a.closing);
    OrderedCons(true, Node(ArgName, a.name), rest);
    OrderedCons(false, Node(ArgName, a.name), rest);
    OrderedCons(false, Node(ArgOpen, a.opening), [Node(ArgName, a.name)] + rest);
    assert Begun(a) + rest == [Node(ArgOpen, a.opening)] + ([Node(ArgName, a.name)] + rest);
  }

  lemma PiecedView(a: Arg, vs: seq<string>)
    requires vs != []
    ensures ViewRun(View("{", 0, false), Begun(a) + (StringNodes(vs) + [Node(ArgClose, a.closing)])).text
         == "{" + Entry(0, a.name) + Pieces(vs) + "\""
  {
    hide Entry, Pieces;
    var close := Node(ArgClose, a.closing);
    ViewRunConcat(View("{", 0, false), Begun(a), StringNodes(vs) + [close]);
    BegunView(View("{", 0, false), a);
    var w := View("{" + Entry(0, a.name), 1, false);
    ViewRunConcat(w, StringNodes(vs), [close]);
    PiecesView(w, vs);
    ViewOne(ViewRun(w, StringNodes(vs)), close);
  }

  lemma {:induction false} PiecesOrdered(vs: seq<string>, closing: string)
    ensures Ordered(true, StringNodes(vs) + [Node(ArgClose, closing)])
    decreases |vs|
  {
    hide Ordered;
    var close := [Node(ArgClose, closing)];
    if vs == [] {
      OrderedCons(true, Node(ArgClose, closing), []);
      assert Ordered(true, []) by { NothingOrdered(); }
      assert close + [] == close && StringNodes(vs) + close == close;
    } else {
      PiecesOrdered(vs[1..], closing);
      OrderedCons(true, Node(ArgStringValue, vs[0]), StringNodes(vs[1..]) + close);
      assert StringNodes(vs) + close == [Node(ArgStringValue, vs[0])] + (StringNodes(vs[1..]) + close);
    }
  }

  lemma NothingOrdered()
    ensures Ordered(true, [])
  {
  }
}
